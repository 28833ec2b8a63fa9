# Steeplechase in Dafny

A model of the parts of Steeplechase where its promises are hardest to keep,
and proofs of those promises for all inputs and all runs:

- **The per-run buffering sink** (`internal/sink/runblock.go`): three linked maps,
  five kinds of event, four reasons to flush, and a lock that is dropped between
  the passes of a request and around every streamed item. It is modelled twice.
  `RunBlockSinks` is the imperative sink with its mutable buffers; each method is
  proved to do to the state and the output what a function on values says
  (`RunBlockState`, `Sequential`). `Interleaving` takes the same functions as the
  atomic steps of any number of concurrent callers, the sweeper and Shutdown.
  A call of the class, one whose bypass write fails included, is a run of the steps
  (`Sequential.CallRuns`, `RunBlockSinks.FailureIsFailed`), so every guarantee proved
  for all reachable states holds for the class as well. `LockedSteps` adds to the
  steps the lock, a clock that does not go back, sweeps and Shutdown in one hold each;
  its runs are runs of `Interleaving`, and it is what schedules are shown in where a
  promise fails.
- **The writer below it** (`internal/sink/stdout.go`), which is also the reference:
  plain line mode. `LockOrder` has the mutexes, the Once, the wait for the sweeper
  and the single lines of each write as steps.
- **The block renderer** (`internal/format/runblock.go`): stable sort, banners, tree
  indentation, and a memoised recursion over a parent graph that may be cyclic.
- **The retry loop** (`internal/sink/retry.go`): growth, cap, jitter, budget, exits.
- **The OTLP JSON rewriter** (`internal/sink/otlp_json.go`): a walk over a JSON tree
  guided by a typed message ("JSON Protobuf Encoding" in the OpenTelemetry
  Protocol specification).

`dafny verify dfyconfig.toml` checks all of it.

## Where to start reading

| module | about |
|---|---|
| `Otlp`, `Hex`, `LineFormat` | messages, identifiers, the lines of line mode |
| `LineText` | the text of lines, banners and warnings, read back |
| `SpanDepths`, `RunBlockFormat`, `SpanTrees`, `TreeLines` | depths in a parent graph, the block of a run, depths of buffered spans and how they are printed |
| `Regroup`, `Bucketing` | splitting a request into what belongs to a run and what does not |
| `RunBlockState`, `History` | one locked step; counting over everything written |
| `Interleaving`, `Conservation`, `TraceIndexBound`, `Guarantees`, `CachedHeader` | concurrent runs and what holds in all of them |
| `RootSpans`, `Routing` | which spans end a run and fill its banners; which run a record reaches |
| `Sequential`, `QuietRuns`, `IdOrder`, `StdoutSinks`, `RunBlockSinks` | calls one after the other; the sinks as classes |
| `LockedSteps`, `LastActivity`, `CallGoesBack` | the steps under the lock; when a last activity goes back |
| `Divergences`, `IndexLeaks` | where code and comments part; which calls leave entries behind |
| `LockOrder` | deadlock freedom, contiguous writes, every call ends |
| `Retry`, `OtlpJson` | the forwarding side |

## Where the code and its comments part

The model follows the code. For each case there is an input or a schedule for which
the promise fails, and the condition under which it holds.

- `internal/sink/runblock.go:107-113` says that every value of the trace index is an
  open run. Between the passes of a request it need not be
  (`Divergences.IndexAheadOfRuns`), nor after a bypass write that failed
  (`IndexAfterFailure`). For calls made one after the other it holds after each of them
  exactly while no request, when it is made, has a trace whose last span to name a
  run names a truncated one (or, if its bypass write fails, one that is not open):
  `IndexLeaks.IndexStaysWithinRunsIff`. With calls in flight that request is the only
  step that can make an entry of a truncated run (`StepLeaksIff`). Such an entry
  outlives every flush (`Divergences.LeakedEntryStays`), and for every configuration
  the index can grow to any size with no run open at all (`IndexOutgrowsRuns`).
  What does bound it is `TraceIndexBound.IndexBound`.
- `internal/sink/runblock.go:433-435` says that items behind the end of a run in the
  same request land in its block. They never do (`Divergences.LateItemOpensNewBlock`):
  in no block is there an item behind one that ends the run (`NothingBehindTheEnd`).
- `internal/format/runblock.go:204-205` says that a cycle caps the depth at the number
  of spans. The depths stay within that number exactly when there is no cycle at
  all (`SpanTrees.SpanDepthsCappedIff`). The cap is twice the number
  (`SpanDepths.DepthBound`), and for every number there are spans that reach it
  (`SpanTrees.BoundAttained`). Off the cycles depths are exact (`DepthExact`).
- `internal/format/runblock.go:175-178` says that the tree is built per trace. Depths
  are keyed by span id alone: a span id in two traces mixes their trees
  (`SpanTrees.SharedIdMixesTraces`). Without such an id the depths off the cycles are
  those of the trace alone exactly when no span there has its parent in another
  trace (`DepthsPerTraceIff`).
- `internal/sink/retry.go:66` says that the operation is called at least once. It is
  exactly when the context has not ended before (`Retry.CalledAtLeastOnceIff`).
- `internal/sink/retry.go:16` says that Max caps every interval. It does exactly when
  it caps the first (`Retry.IntervalsCappedIff`). A sleep can exceed it by its
  jitter, also by default (`DefaultExceedsMax`); `SleepsCappedIff` says for which
  configurations none does.
- `now` is read once per call (`internal/sink/runblock.go:325`, `:408`, `:499`), and the
  call gives up the lock to stream an item. So the last activity of a run can go back
  (`LastActivity.ActivityCanGoBack`), but only with an item taken after its call has
  streamed another (`LockedSteps.BackOnlyAfterStreaming`). Which calls it can happen to
  can be told from their items and the state in which they read the clock
  (`CallGoesBack.CallGoesBackIff`): one item has to be streamed; behind it an item has
  to stay in the buffer of a run not truncated by then, directly or behind an item of
  another run; and no end of the run in between may be followed by so many of its
  items that they overflow (`OverfilledNeverBack`).

## Model

| member | source | states |
|---|---|---|
| `Conservation.BufferingRefinesLineMode` | internal/sink/runblock.go:289-536 | Whatever the interleaving: with no call in flight, no run open and no bypass write failed, the output without banners, warnings and indentation is a permutation of what line mode writes for the same requests; all five metric shapes, unknown metrics, logs and spans. |
| `Conservation.LinesConserved` | internal/sink/runblock.go:289-536 | In every reachable state each line of line mode is on the output, in an open buffer, in flight, or was given up by a request whose bypass write failed; none twice. |
| `Conservation.TakeItemBalanced` | internal/sink/runblock.go:498-533 | The locked turn for one item keeps that balance: written, due to be streamed and still buffered make up for what was buffered and the item. |
| `Sequential.SequentialRefinement` | internal/sink/runblock.go:218-237 | For any calls and sweeps ended by Shutdown, none with a failed bypass write, the output without banners and indentation is a permutation of line mode's. |
| `RunBlockSinks.OutputRefinesLineMode` | internal/sink/stdout.go:57-66 | The same for what is in the writer's hands at the end, when the writer does not fail. |
| `Guarantees.HistoryIsBlocks` | internal/sink/runblock.go:498-533 | For every run in every reachable state, the accepted items in lock order are the items of its blocks one after the other and then of its open buffer. |
| `Guarantees.LockInvariant` | internal/sink/runblock.go:541-585 | Whenever the lock is free: no run is both open and truncated; an open buffer is under its own id, holds 1 to MaxItems items, is not ended and has no outcome. |
| `Guarantees.TruncationIsFinal` | internal/sink/runblock.go:559-570 | An overflow block holds exactly MaxItems items; no block of that run, so no header and no second warning, is ever written after it, and nothing of the run was streamed before it. |
| `Guarantees.StreamedAfterOverflow` | internal/sink/runblock.go:500-526 | Every streamed item has the overflow block of its run before it in the output. |
| `Guarantees.OneWarningPerTruncatedRun` | internal/sink/runblock.go:620-633 | The text of the output holds the warning of a run once if the run is truncated and not at all otherwise; no item line, header or footer can be mistaken for it. |
| `Interleaving.NextSafe` | internal/sink/runblock.go:289-640 | Every step of any thread keeps the lock invariant, writes only well-formed blocks, and streams only items of truncated runs. |
| `Interleaving.NextHistory` | internal/sink/runblock.go:289-640 | Every step keeps the equation between accepted items, blocks and open buffer of every run. |
| `RunBlockState.EnqueueOk` | internal/sink/runblock.go:500-532 | One locked turn keeps the invariant; a block it writes holds 1 to MaxItems items, only the last can have ended the run, and its cached fields are those its items give. |
| `RootSpans.RunEndsIff` | internal/sink/runblock.go:508-533 | A turn writes a block because its run has ended if and only if its item is accepted and is a span named run without a parent and with an outcome; the block then holds the run's items and that span. |
| `RootSpans.RootEndedIff` | internal/sink/runblock.go:1076-1088 | In every reachable state a block was written for that reason if and only if its last item is such a span; no other item of it is. |
| `RootSpans.OthersFillNothing` | internal/sink/runblock.go:508-512 | A span of another name or with a parent, a log record or a data point leaves every cached field of its run as it was. |
| `RootSpans.RootFills` | internal/sink/runblock.go:740-763 | What a root says replaces each cached field, what it does not say stays; the first start and the last end count. |
| `History.EnqueueAppends` | internal/sink/runblock.go:500-532 | The item goes to the end of its run's buffer or of the block written; a rejected one goes to neither; other runs are untouched. |
| `History.BlockLinesBag` | internal/sink/runblock.go:615-639 | The item lines of a block, with or without the footer replaced, are those of its items in line mode. |
| `TraceIndexBound.IndexBound` | internal/sink/runblock.go:452-505 | In every reachable state the run of every index entry is open, truncated, still to be delivered by a request in flight, or was given up by a request whose bypass write failed. |
| `TraceIndexBound.NextIndex` | internal/sink/runblock.go:452-585 | Every step of any thread keeps that. |
| `IndexLeaks.IndexStaysWithinRunsIff` | internal/sink/runblock.go:107-113 | For any calls, failing ones included, and sweeps one after the other: every index entry names an open run after each of them if and only if in each request of spans, when it is made, the last span of each trace that names a run names no truncated one, or an open one if the bypass write fails. |
| `IndexLeaks.CallWithinIff` | internal/sink/runblock.go:436-536 | The same for one call, from the spans of the request and the state before the call. |
| `IndexLeaks.StepLeaksIff` | internal/sink/runblock.go:452-463 | With any calls in flight: from a state without an entry of a truncated run a step makes one if and only if it is the first pass of a request in which such a last span names a truncated run. |
| `IndexLeaks.CallLeaksIff` | internal/sink/runblock.go:436-536 | The same for a whole call, a sweep or Shutdown. |
| `Divergences.IndexWithinRunsIff` | internal/sink/runblock.go:107-113 | In every reachable state with no request in flight and no bypass write failed, whatever the interleaving before: every index entry names an open run if and only if none names a truncated run. |
| `Divergences.IndexAheadOfRuns` | internal/sink/runblock.go:452-463 | Under the lock a state is reachable, between the passes of a request, with an entry and no run open or truncated. |
| `Divergences.IndexAfterFailure` | internal/sink/runblock.go:488-492 | Under the lock a state is reachable, after a request whose bypass write failed, with no request in flight, an entry and no run open or truncated. |
| `Divergences.LeakedEntryStays` | internal/sink/runblock.go:577-585 | An entry of a truncated run survives every step but a request that has a span of the same trace with a run id. |
| `Divergences.IndexOutgrowsRuns` | internal/sink/runblock.go:107-113 | For every configuration and every n a state is reachable with no call in flight, no open run and n index entries. |
| `Divergences.LateItemOpensNewBlock` | internal/sink/runblock.go:431-435 | From every state: the block of a run ends with the item that ended it; the next item of the run is alone in a new buffer or block. |
| `Divergences.NothingBehindTheEnd` | internal/sink/runblock.go:526-533 | In every reachable state: the item that ends a run is the last of its block, in every block written, and no open buffer holds one. |
| `LockedSteps.LockedIsReachable` | internal/sink/runblock.go:218-345 | What is reached with the lock held as the source holds it by calls, the sweeper and Shutdown, and a clock that does not go back, is reachable in the interleaving model. |
| `LockedSteps.BackOnlyAfterStreaming` | internal/sink/runblock.go:498-526 | In every state reached so, a step that moves a run's last activity back takes an item of that run for a call that has streamed an item since it read the clock, and another call has read it later. |
| `LastActivity.StaleReadingIff` | internal/sink/runblock.go:324-345 | From the reading of the clock on, over all executions: a call can come to take an item with a reading that is not the latest of a call if and only if one of its items but the last is streamed. |
| `LastActivity.NoneStreamedNeverBack` | internal/sink/runblock.go:407-423 | A call none of whose items is streamed moves no last activity back, whatever other calls do. |
| `LastActivity.NextBackIff` | internal/sink/runblock.go:498-533 | For a call that has streamed an item, before Shutdown begins: others can bring about that its next item moves its run's last activity back if and only if that run is not truncated, the item does not end it, and a buffer can hold two items. |
| `CallGoesBack.CallGoesBackIff` | internal/sink/runblock.go:324-345 | For a whole call that reads the clock before Shutdown begins: some execution of it, with any other calls and sweeps, moves a last activity back if and only if a buffer can hold two items, the call streams one, and behind that an item stays in the buffer of a run not truncated by then, first of all or behind an item of another run, with no end of the run in between that is followed by more of its items in a row than a buffer holds. |
| `CallGoesBack.CallGoesBackOnlyIf` | internal/sink/runblock.go:324-345 | The first half of that also during and after Shutdown. |
| `CallGoesBack.OverfilledNeverBack` | internal/sink/runblock.go:559-570 | Items for which all but the last clause hold. |
| `LastActivity.ActivityCanGoBack` | internal/sink/runblock.go:498-526 | For any two readings a state and a step are reachable under the lock that take a run's last activity from the later to the earlier; the call has an item of a truncated run before one of that run. |
| `CachedHeader.OpenHeaderAgrees` | internal/sink/runblock.go:740-763 | The cached mode, provider, model, turns and times of an open run are the last values, the first start and the last end among the spans named run without a parent that it holds. |
| `CachedHeader.BlockHeaderAgrees` | internal/sink/runblock.go:587-613 | The same for the fields a block is rendered from, a rejected root included on overflow; at root end the footer's outcome is the ending span's own. |
| `CachedHeader.BlockFromItems` | internal/sink/runblock.go:576-640 | All lines of a block from its items alone: the header with its fallback, the body in stable time order, and by reason the reported outcome, an unknown one, or the warning with MaxItems. |
| `Sequential.CallRuns` | internal/sink/runblock.go:289-536 | Each call made alone, and each whose bypass write fails after any number of lines, is a run of the interleaving model from one settled state to the next. |
| `Sequential.PlayedIsReachable` | internal/sink/runblock.go:289-536 | What calls made one after the other lead to is reachable there, so all its guarantees hold. |
| `Sequential.SweepIsExact` | internal/sink/runblock.go:274-284 | A sweep writes one block for each run idle for at least the timeout, from all it held, and no other; exactly these runs and their index entries go; the order of the map decides the order of the blocks only. |
| `QuietRuns.QuietRunIsFlushedInTime` | internal/sink/runblock.go:250-284 | With any calls in flight, however they interleave under the lock: while none takes an item of a run, it stays as it is until the first sweep that finds it idle for the timeout, read on the clock less than one tick late, before 5/4 of the timeout for timeouts of at least 400ms; that sweep writes its block with all its items. |
| `QuietRuns.TickIntervalBounds` | internal/sink/runblock.go:250-257 | Four ticks to a timeout, but never less than 100ms between two. |
| `QuietRuns.QuietRunIsFlushed` | internal/sink/runblock.go:250-284 | The same for calls as `Perform` makes them, one after the other, failing ones included. |
| `Sequential.CloseEmpties` | internal/sink/runblock.go:223-233 | Shutdown writes one block per open run and leaves none open. |
| `IdOrder.SortIdsAscending` | internal/sink/runblock.go:224-229 | Sorting keeps exactly the open ids, in ascending order. |
| `IdOrder.AscendingUnique` | internal/sink/runblock.go:228-229 | There is one such order, whatever order the map is visited in. |
| `IdOrder.BeforeIff` | internal/sink/runblock.go:228-229 | An id is before another if and only if, where they first differ, it has ended or has the smaller character. |
| `RunBlockSinks.RunBlockSink.constructor` | internal/sink/runblock.go:163-197 | An empty sink; limits that are not positive get their defaults. |
| `RunBlockSinks.RunBuffer.AbsorbRoot` | internal/sink/runblock.go:740-763 | The buffer after a run root, field by field. |
| `RunBlockSinks.RunBlockSink.OpenRunLocked` | internal/sink/runblock.go:541-549 | The open buffer, or a fresh one filed under the id, active now; no other buffer changes. |
| `RunBlockSinks.RunBlockSink.AppendItemLocked` | internal/sink/runblock.go:559-570 | True and one item more below the cap; else false, the overflow block written and the run gone. |
| `RunBlockSinks.RunBlockSink.DropTraces` | internal/sink/runblock.go:577-585 | Exactly the index entries of the run are deleted. |
| `RunBlockSinks.RunBlockSink.RenderBlock` | internal/sink/runblock.go:593-633 | The lines of a buffer for the reason of its flush. |
| `RunBlockSinks.RunBlockSink.FlushLocked` | internal/sink/runblock.go:576-640 | The whole new state and the block written. |
| `RunBlockSinks.RunBlockSink.EnqueueLocked` | internal/sink/runblock.go:500-532 | One turn of the locked loop is the step the interleaving model takes. |
| `RunBlockSinks.RunBlockSink.StreamSingle` | internal/sink/runblock.go:645-691 | A streamed item is written as its one line of line mode, for every kind of item, or dropped when the context has ended. |
| `RunBlockSinks.RunBlockSink.ConsumeMetrics` | internal/sink/runblock.go:289-347 | State, output and error of the call: as planned when the bypass write goes through; when it fails, the pending items are given up. |
| `RunBlockSinks.RunBlockSink.ConsumeLogs` | internal/sink/runblock.go:352-424 | The same for log records. |
| `RunBlockSinks.RunBlockSink.MapTraces` | internal/sink/runblock.go:452-463 | The index after the first pass. |
| `RunBlockSinks.RunBlockSink.BucketSpans` | internal/sink/runblock.go:465-486 | The bypass request and the pending spans of the second pass. |
| `RunBlockSinks.RunBlockSink.ConsumeTraces` | internal/sink/runblock.go:436-536 | The same as for metrics; the index keeps what the first pass has learned even when the bypass write fails. |
| `Routing.SpanReachesRun` | internal/sink/runblock.go:436-536 | A span ends up in the block or buffer of, or streamed for, the run it names itself, else the run that the last span of the request to name one for its trace names, else the run its trace was mapped to before; with none of these it is written at once as in line mode. |
| `Routing.SpanRouted` | internal/sink/runblock.go:465-486 | The i-th span is the next pending item of its run, under its start time, or the next one kept for the bypass; own run first, index second, for any index. |
| `Routing.SortSpanRoutes` | internal/sink/runblock.go:468-486 | The same for each look-up with other calls in flight. |
| `Routing.LogReachesRun` | internal/sink/runblock.go:352-424 | A log record reaches its own run, else its scope's, else its resource's; with none it is written at once. |
| `Routing.LogRouted` | internal/sink/runblock.go:373-391 | Each record, in order, is pending for that run under its own time or kept. |
| `Routing.PointReachesRun` | internal/sink/runblock.go:289-347 | A data point of any shape reaches its own run, else its resource's, with name, attributes, shape and time; with none it is written at once. |
| `Routing.PointRouted` | internal/sink/runblock.go:838-944 | Each point, in order, is pending for that run or kept. |
| `Routing.PointOfRequest` | internal/sink/runblock.go:769-836 | The same across a request; a metric keeps all but the points taken out of it. |
| `RunBlockSinks.RunBlockSink.SweepIdle` | internal/sink/runblock.go:274-284 | For some order of exactly the idle runs, state and output are those of flushing them in that order. |
| `RunBlockSinks.RunBlockSink.Shutdown` | internal/sink/runblock.go:218-237 | The first call flushes every open run in ascending order of ids and leaves none; any later call changes and writes nothing. |
| `RunBlockSinks.FailureIsFailed` | internal/sink/runblock.go:314-318 | A call of the class whose bypass write fails does to state and output what the failed call of the model does, for some number of lines written. |
| `RunBlockSinks.ReplayIsText` | internal/sink/stdout.go:57-66 | With a writer that does not fail the output is the text of all writes in order. |
| `RunBlockSinks.HasRecords` | internal/sink/runblock.go:1031-1062 | True exactly when the request holds a record. |
| `StdoutSinks.StdoutSink.WriteLines` | internal/sink/stdout.go:57-66 | The lines up to the first that fails are out, and the call says whether all went through. |
| `StdoutSinks.StdoutSink.ConsumeMetrics` | internal/sink/stdout.go:33-39 | Nothing when the context has ended, else the lines of line mode. |
| `StdoutSinks.AllWritten` | internal/sink/stdout.go:57-66 | A writer that does not fail takes every line. |
| `StdoutSinks.FailedPrefix` | internal/sink/stdout.go:57-66 | A call fails if and only if the writer fails one of its lines; the lines before the first such line are out and none behind it is offered. |
| `Bucketing.MetricsSplit` | internal/sink/runblock.go:769-944 | Each data point of all five shapes, and each metric of unknown shape, is written by the bypass or is one pending item, with the line it has in line mode. |
| `Bucketing.LogsSplit` | internal/sink/runblock.go:360-393 | The same for log records. |
| `Bucketing.SpansSplit` | internal/sink/runblock.go:465-486 | The same for spans, whatever the index holds. |
| `Bucketing.SplitPoints` | internal/sink/runblock.go:838-944 | The points without a run are kept in order, the others become pending items in order. |
| `Bucketing.BucketMetricDataPoints` | internal/sink/runblock.go:769-836 | The metric with the points that are left, or none if none is; unknown data is kept as it is. |
| `Bucketing.BucketMetrics` | internal/sink/runblock.go:297-311 | Bypass request and pending items of a whole request. |
| `Bucketing.BucketLogs` | internal/sink/runblock.go:360-393 | The same for logs: the record's run id goes before its scope's and that before its resource's. |
| `Regroup.RegroupedIsPermutation` | internal/sink/runblock.go:950-1026 | The bypass request holds exactly the records put in, each under the resource and scope it came with. |
| `Regroup.RegroupedKeepsOrder` | internal/sink/runblock.go:950-1026 | Under one resource, schema, scope and schema they keep their order. |
| `Regroup.RegroupedWellGrouped` | internal/sink/runblock.go:950-1026 | No shell is empty, no two answer to the same key, and there is none exactly when there is no record. |
| `Regroup.Bypass.EnsureScope` | internal/sink/runblock.go:950-975 | The request after one more record. |
| `LineFormat.MergePrecedence` | internal/format/metrics.go:114-134 | For every key the data point's entries replace all of the resource's; keys the point lacks keep the resource's. |
| `LineFormat.MergeAttributes` | internal/format/metrics.go:114-134 | The merged list. |
| `LineFormat.FormatMetrics` | internal/format/metrics.go:11-40 | One line per data point of a request, in order, under the attributes of its resource. |
| `LineText.PointLineText` | internal/format/metrics.go:42-105 | The line of a data point: a number's value, 0 without one, or count, in digits that read back as the count, and sum; the merged attributes behind. |
| `LineText.LogLineText` | internal/format/logs.go:47-90 | The line of a log record: as an event if it has an event name, without that attribute and with a body only if there is one, else with severity and quoted body. |
| `LineText.SpanLineText` | internal/format/traces.go:23-34 | The line of a span. |
| `LineText.EventIsFirst` | internal/format/logs.go:50-59 | The event name is what the first attribute under event.name shows; the search ends there even if it has no value. |
| `LineText.NoEvent` | internal/format/logs.go:50-59 | Without such an attribute there is no event name. |
| `LineText.LookupIsFirst` | internal/sink/runblock.go:1064-1074 | Looking up a key gives the text of the first attribute under it that has a value, or nothing if none has. |
| `LineText.AttributesText` | internal/format/common.go:20-30 | Attributes are pairs in braces; each further pair goes in front of the closing one behind a comma. |
| `LineText.SeverityNames` | internal/format/logs.go:11-28 | Four severity numbers to each name from TRACE to FATAL; UNSPECIFIED below and FATAL above. |
| `LineText.TimestampText` | internal/format/common.go:12-18 | Time zero is no timestamp. |
| `RunBlockFormat.RenderItemIsLineMode` | internal/format/runblock.go:310-373 | Outside a tree every item renders as its one line of line mode, metrics of all five shapes included. |
| `RunBlockFormat.SortByTimeStable` | internal/format/runblock.go:106-110 | The body is a permutation of the items in time order, those of one instant in the order they came. |
| `RunBlockFormat.StableSortUnique` | internal/format/runblock.go:106-110 | There is only one such order. |
| `RunBlockFormat.BlockContents` | internal/format/runblock.go:102-121 | A block is header, one line per item and footer; cutting the last line removes exactly the footer; the item lines are line mode's. |
| `RunBlockFormat.TreeIndentsGrouped` | internal/format/runblock.go:175-200 | Tree mode has grouped mode's lines in grouped mode's order, span lines with two spaces per level behind the tag, others untouched. |
| `TreeLines.SpanIndentation` | internal/format/runblock.go:175-247 | In a tree block the line of a span is its line of line mode with two spaces behind the tag for each buffered ancestor, the last buffered span standing for its id, whatever the visiting order. |
| `TreeLines.IndentationBound` | internal/format/runblock.go:175-247 | No span, in a cycle or not, is indented by more than four spaces for each buffered span id, and one without an id not at all. |
| `TreeLines.PlainLine` | internal/format/runblock.go:184-200 | Every line of a grouped block, and every line of a tree block that is not a span's, is the one of line mode. |
| `RunBlockFormat.IndentedSpan` | internal/format/runblock.go:266-296 | Stripping the indentation gives the line back, and its length gives the depth. |
| `RunBlockFormat.BannerFallbacks` | internal/format/runblock.go:130-173 | Without cached times the header shows the first instant of the body and the footer the last. |
| `LineText.BannerText` | internal/format/runblock.go:130-173 | Header and footer show every field that is not empty under its name, and an unknown outcome as such. |
| `LineText.OverflowWarns` | internal/sink/runblock.go:620-633 | In every reachable state an overflow block holds MaxItems items and ends with the warning for its run, whose digits read back as MaxItems. |
| `RunBlockFormat.EarliestIsFirst` | internal/format/runblock.go:131-140 | The least timestamp of the unsorted items is the first of the sorted ones. |
| `RunBlockFormat.RenderRunBlock` | internal/format/runblock.go:102-121 | The lines of the block in both modes. |
| `RunBlockFormat.RenderHeader` | internal/format/runblock.go:130-155 | The header line. |
| `RunBlockFormat.DepthTable.Resolve` | internal/format/runblock.go:218-243 | The memo and the depth after one call of the recursive closure, which ends on every parent graph. |
| `RunBlockFormat.ComputeSpanDepths` | internal/format/runblock.go:206-247 | The depths for the order in which the map is visited. |
| `RunBlockFormat.SpanDepthExact` | internal/format/runblock.go:206-247 | A span whose buffered parents do not loop has the number of its buffered ancestors as depth, whatever the visiting order. |
| `RunBlockFormat.SpanDepthBound` | internal/format/runblock.go:206-247 | Every depth is at most twice the number of indexed spans. |
| `SpanTrees.DepthsByIds` | internal/format/runblock.go:206-247 | That is twice the number of distinct buffered span ids. |
| `SpanTrees.SpanDepthsCappedIff` | internal/format/runblock.go:204-205 | Every depth is at most the number of distinct buffered span ids if and only if every parent chain ends, whatever the visiting order. |
| `SpanTrees.BoundAttained` | internal/format/runblock.go:204-205 | For every n there are items with n span ids and an order of the map that give a span a depth of 2n. |
| `SpanTrees.IndexCountsIds` | internal/format/runblock.go:207-212 | The index has one entry for each distinct span id that is not empty. |
| `RunBlockFormat.DepthsIgnoreTraces` | internal/format/runblock.go:207-216 | Depths are keyed by span id alone: trace ids make no difference. |
| `SpanTrees.DepthsPerTraceIff` | internal/format/runblock.go:175-178 | Where no two traces share a span id: every span whose chain ends has the depth it has in the tree of its own trace if and only if none of them has a buffered parent in another trace. |
| `SpanTrees.SharedIdMixesTraces` | internal/format/runblock.go:175-178 | A span id in two traces: a span gets depth 2 where the tree of its trace has it at 1. |
| `SpanDepths.DepthBound` | internal/format/runblock.go:218-247 | On every graph, cycles and self-parents included, and in every order, every depth is at most 2n. |
| `SpanDepths.DepthExact` | internal/format/runblock.go:218-247 | Where the parent chain ends the depth is its length, less than n, in every order and whatever the rest of the graph. |
| `SpanDepths.PathIsShort` | internal/format/runblock.go:219-224 | A path that ends visits distinct ids, so it is shorter than the graph. |
| `SpanDepths.GuardFiresIffCyclic` | internal/format/runblock.go:219-224 | On a fresh memo the hop guard stops exactly the spans whose chain never ends, on a filled memo no other. |
| `SpanDepths.DepthsCappedIff` | internal/format/runblock.go:204-205 | On every graph and in every order: every depth is at most n if and only if every parent chain ends. |
| `SpanDepths.BoundAttained` | internal/format/runblock.go:204-205 | A self-parent with its descendants in a line, visited from the top, give the last of n a depth of 2n. |
| `SpanDepths.OrderHiddenIff` | internal/format/runblock.go:244-246 | The order of the map shows in no depth if and only if every chain ends or is that of a span that is its own parent. |
| `LockOrder.DeadlockFree` | internal/sink/runblock.go:98-101 | In every reachable state with a caller or a sweep not done, some thread can step without a new caller or tick. |
| `LockOrder.StepUsesWork` | internal/sink/runblock.go:218-284 | Every such step uses up work, so no run of them goes on for ever. |
| `LockOrder.EveryCallEnds` | internal/sink/runblock.go:218-284 | All Consume calls, all Shutdowns and the sweep under way are done after at most as many steps as there is work left. |
| `LockOrder.CallsAreContiguous` | internal/sink/stdout.go:57-66 | The output is one completed call of writeLines after the other and then what the call under way has written. |
| `LockOrder.NextInv` | internal/sink/runblock.go:98-101 | Every step keeps the lock order, the holders, and the wait for the sweeper behind its stop signal. |
| `Retry.Do` | internal/sink/retry.go:68-142 | Attempts, error and everything done on the way, for every configuration and every script of results, times and samples. |
| `Retry.SleepBudget` | internal/sink/retry.go:110-125 | With a budget the sleeps asked for are not negative and never add up to more, whatever operation and timers take. |
| `Retry.TimeCounts` | internal/sink/retry.go:77-125 | The time of all operations, sleeps and late timers counts: a sleep is asked for only while some of the budget is left, and for no more; the loop stops for want of time only when none is. |
| `Retry.RetryTrace` | internal/sink/retry.go:91-142 | Only failures without a permanent error and without the end of the context in their chain are followed by a call; calls are attempts + 1, at the context exit at the top of the loop attempts; the error returned is the last of the operation or the context's; one sleep per attempt. |
| `Retry.FoundIff` | internal/sink/retry.go:54-57 | The search along the chain of wrapped errors finds a permanent error or the end of the context if and only if some error of the chain is one. |
| `Retry.PermanentIsFinal` | internal/sink/retry.go:99-108 | A failure with such an error anywhere in its chain is the last call, without a sleep behind it, and is returned; the loop gives up for no other reason. |
| `Retry.DefaultsFilled` | internal/sink/retry.go:68-89 | Every configuration does what it does with 500ms for no first interval, the first interval for no Max, doubling for no multiplier and jitter cut to 0 to 1. |
| `Retry.CalledAtLeastOnceIff` | internal/sink/retry.go:66-97 | The operation is called if and only if the context has not ended before. |
| `Retry.IntervalFormula` | internal/sink/retry.go:134-141 | For 0 < Initial <= Max and doubling the k-th interval is min(Initial * 2^k, Max). |
| `Retry.IntervalsCappedIff` | internal/sink/retry.go:80-87 | Max caps every interval of every execution if and only if it caps the first. |
| `Retry.SleepsCappedIff` | internal/sink/retry.go:110-122 | For every configuration: no sleep of any execution exceeds Max if and only if there is no k whose k-th interval jitter can take above Max while the shortest sleeps before it leave more than Max of the budget, or there is no budget. |
| `Retry.DefaultExceedsMax` | internal/sink/retry.go:24-32 | By default, with Max at 10 seconds, an execution asks for a sleep of 11. |
| `Retry.AttemptsBoundedIff` | internal/sink/retry.go:91-142 | No execution makes more than n retries if and only if there is a budget and the n shortest sleeps the jitter allows exhaust it. |
| `Retry.Terminates` | internal/sink/retry.go:91-142 | With a budget, a multiplier of at least one and jitter that leaves a nanosecond of the smallest interval, the loop ends. |
| `Retry.FullJitterUnbounded` | internal/sink/retry.go:148-155 | With full jitter there is no bound on the retries within the budget. |
| `Retry.DefaultRetriesAtMostEight` | internal/sink/retry.go:24-32 | The default configuration makes at most 8 retries, and 8 can happen. |
| `Retry.JitterRange` | internal/sink/retry.go:144-155 | The jittered interval lies between d(1-j), truncated, and d(1+j). |
| `OtlpJson.HexJSONIDs` | internal/sink/otlp_json.go:23-61 | Whatever order the fields are visited in, the result, or the error, is the one the body and the message determine. |
| `OtlpJson.RewriteGivesHex` | internal/sink/otlp_json.go:13-61 | On the base-64 JSON of any message tree the result is the encoding with hexadecimal trace_id, span_id and parent_span_id and everything else as it was. |
| `OtlpJson.BytesOfMarshalled` | internal/sink/otlp_json.go:31-37 | At every depth of the JSON protojson writes, a bytes field named trace_id, span_id or parent_span_id comes out in hexadecimal and any other in base 64. |
| `OtlpJson.IdentifiersRewritten` | internal/sink/otlp_json.go:23-61 | At every depth of every body the rewriter accepts: those three fields hold the message's bytes in hexadecimal, whatever was there; other bytes, scalars and unknown fields are as the body had them. |
| `OtlpJson.RewriteSucceedsIff` | internal/sink/otlp_json.go:23-61 | There is no error if and only if the body has an object for the message and each message in it, and no list longer than the message's. |
| `OtlpJson.OnlyIdsChange` | internal/sink/otlp_json.go:21-61 | Whatever the body, the result differs from it at identifier fields of the message only. |
| `OtlpJson.AttributeUntouched` | internal/sink/otlp_json.go:21-22 | An attribute that holds bytes stays as it is under every key, traceId included. |
| `OtlpJson.NoIdsNoChange` | internal/sink/otlp_json.go:21-61 | So does every message tree without identifier fields. |
| `OtlpJson.RewritePreservesMeaning` | internal/sink/otlp_json.go:13-19 | A reader of OTLP JSON gets from the rewritten JSON the very message that was marshalled. |
| `OtlpJson.HexDecodes` | internal/sink/otlp_json.go:12-19 | Reading the hexadecimal encoding of a message gives the message. |
| `Hex.RoundTrip` | internal/sink/otlp_json.go:34-36 | Decoding the hexadecimal form of an identifier gives the identifier. |
| `Hex.DigitsAt` | internal/sink/otlp_json.go:34-36 | Two lower-case digits for each byte, the high one first. |

## Left out

- gRPC, HTTP and MQTT transports, receivers, the admin server, DSN parsing, `FanoutSink`, `MeteredSink` and the Prometheus recorder: input/output, library plumbing and counting.
- Calendar and `%q` formatting: arguments of the model (`LineFormat.Printer`); of a timestamp it is used only that it is not empty and does not start with a space. `%g` and values that are not strings are represented by the text printed for them. Strings are sequences of characters; ids are compared character by character.
- Nil messages inside a request (nil metric, nil data point, nil span): a request holds no nil records in the model. Data points without a value are covered.
- Resource and Scope identity: the source compares pointers; here a message carries an address, and equal values are the same message.
- Go's order over maps: an argument (`RunBlockFormat.Visit`) where the depths are computed, arbitrary choice in `RunBlockSink.SweepIdle`, `OpenIds`, `DropTraces` and `OtlpJson.HexJSONIDs`. `sort.SliceStable` and `sort.Slice` are insertion sorts of the same outcome.
- The three nested loops over resources, scopes and records are one loop over `Otlp.Entries` in the bucketing methods; `LineFormat.FormatMetrics` and `HasRecords` keep them apart. The three locked loops, the three `ensureScope*` and the four `split*Points` functions share one body each. A `runBuffer` is one datatype value behind its pointer.
- Conservation.BufferingRefinesLineMode: assumes a context that does not end during a call and a writer that takes every block and every streamed item, because the source discards the errors of these writes; a failing bypass write is modelled in the steps, in `Sequential` and in the class, other failing writes in the class alone (`RunBlockSinks.Replay`). Consume after Shutdown is not considered there: what it buffers is not flushed.
- RunBlockSinks.RunBlockSink.ConsumeTraces: a call runs alone in the class; other callers between its passes are covered by `Interleaving`. This and the other two Consume methods look at the context at the start; one that ends during the call, whose streamed items are then dropped, is not modelled beyond `StreamSingle`.
- CallGoesBack.CallGoesBackIff: for a call that reads the clock after Shutdown has begun only one half is stated (`CallGoesBackOnlyIf`), because a full buffer is then not swept any more. The same goes for `LastActivity.NextBackIff`.
- LockOrder.DeadlockFree: what threads compute between lock operations is left out, any lines may be written; the writer does not fail; scheduling and the ticker are arbitrary. The lock-free fast path of sync.Once is taken through the lock.
- Retry.Do: durations are unbounded integers and factors are reals, so float64 rounding and durations near 2^63 ns are not modelled; clock, results and samples come from a script, and at its end the context counts as ended. Error texts are not modelled beyond the chain that errors.As and errors.Is walk.
- OtlpJson.HexJSONIDs: JSON is a tree, not bytes; the order of object keys and white space are not modelled; protojson is the abstract encoder with base 64 as an argument; JSON null does not occur; a JSON list longer than the message's counts as an error. gzip is left out.
- `headerKnown` is carried along; nothing in the source reads it.
