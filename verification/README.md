# LoadWave, modelled and verified in Dafny

LoadWave drives load at a service from many processes on many hosts and shows the result as one
distribution. This project models the parts of it where that is hard, in the repository's own terms,
and proves what they are for.

- **Metrics, from a recording to the report.** Nodes record into lock-sharded aggregates found through a
  chained hash index, flush them as deltas with run-length encoded histograms, and the coordinator folds
  the deltas into cumulative aggregates and a window of time buckets, which it publishes incrementally.
  The main theorems are `Fleet.MergeIsExact` and `Fleet.SameAsOneProcess`: a fleet's numbers are those of
  one process; `Pipeline.FlushAndIngest` says the same of the objects that do it, end to end. When the
  window's history is in order is `Window.OrderlyIff`, and when the stream is that history,
  `Published.StreamIsFinalisedIff`; what every bucket of it shows, `Finished.TimelineShows`.
- **Load.** One largest-remainder routine splits whole units from the coordinator down to scenario groups,
  and every node follows a rescaled copy of one curve. `Apportion.Optimal` and
  `Executor.FleetFollowsProfile` are the main results.
- **Control.** The coordinator's run lifecycle, its dispatch to agents, the agent's dispatch of workers and the
  way of a report upstream are state machines over lock sections that interleave freely: `Lifecycle.RunKept`,
  `Lifecycle.EndedByOneStep`, `Lifecycle.StopTimesOut`, `AgentMachine.StoriesHoldIff`,
  `DispatchMachine.StoriesHoldIff`, `StatusMachine.FinishedIff`. `RunStatus.CompletionMeans` joins the first and the
  last: what a completed run's phase says of its workers. `RunRecord.RunRecords` and `AgentMachine.QuotaIsShared` say
  what a run shows and what an agent shares out after any steps.

## How it is built

A file whose name ends in `Machine`, and `Window`, `Lifecycle` and `Fleet`, say what one lock section or one
delivery does to a state, and prove theorems over every sequence of such steps. `AggIndex`, `Recorder`,
`Store`, `Ring`, `Agent`, `Coordinator` and `Pool` are the objects of the program: classes whose methods
update their fields in place, each proved to take its machine through a step. `Apportion`, `Executor`,
`Labels`, `Histogram`, `Buckets`, `StoreBuckets`, `Totals`, `Wire`, `PhaseFold` and `Template` hold the algorithms:
loops over arrays and sequences proved against specifications, and lemmas about those specifications. `Dispatch` says
what a dispatch tells the agents, and `DispatchRun` what the dispatches of a whole run hand out. `Finished` and
`RunRecord` tell what a finalised bucket and a run show from what happened to them. `Pipeline`, `Published` and
`RunStatus` join the parts: from a flush to the coordinator's aggregates, from batches to the published stream, and
from workers' reports to a run's phase.

A method of the coordinator that has several lock sections says which steps of the machine it takes, in order; the
theorems about the machine hold with any other steps in between. The ticker's checks are two steps, a look and an act.

In the metrics machines an aggregate travels together with the list of observations that went into it. The
list is there only to say what "everything that was recorded" means. Lists are compared by how often each
value occurs, so that order and place drop out.

## Where the code does less than one might expect

Each of these is proved, with the exact condition under which the expected property does hold.

- A bucket's lateness is measured from the latest batch when a batch arrives, but from the clock when buckets
  are closed. As batches trail the clock, a tick can finalise a bucket that a batch may still reopen; exactly when is
  `Window.ReopenableIff` and `Window.ReopenableIffEarly`, and then an index can be finalised twice
  (`Window.EarlyRepeats`). The history of a run is in order exactly if no batch does that (`Window.OrderlyIff`), as when
  every new bucket is within its grace of the clock too (`Window.PromptOpensAbove`).
- Bucket indices count from the Unix epoch, bucket starts are rounded from the year 1. Unless the resolution
  divides the distance, neighbouring buckets can show the same start (`Window.StartsFollowIffAligned`,
  `Published.RiseIffAligned`). The stream goes by starts: it skips a bucket that does not start past what was
  published when it is filed (`Ring.TwinIsSkipped`), and is complete exactly when there is no such bucket and none
  left the ring unpublished (`Ring.StreamCompleteIffClean`).
- Zero stands for "unset" in minima, so a point's minimum and the two whole-run views can differ from the true
  minimum and from each other (`Buckets.PointExtremes`, `Totals.MinimaAgreeIff`).
- Thresholds add up what gauges have added up, which is nothing, so a gauge's average is zero to them whatever its
  readings (`Totals.GaugesAgreeIff`).
- An observation is converted to 64 bits before it is clamped, so one that does not fit is counted at the bottom of the
  histogram instead of at the top (`Histogram.ScaleValueMonotoneIff`).
- A ramp whose last stage climbs to the peak is at zero when that stage ends, so a steep one never gets there
  (`Executor.PeakReachedIff`).
- The size guard of the run-length decoder adds before it compares, in 64 bits; one long run wraps it
  (`Histogram.UnallocatableIff`).
- A worker's leave takes two lock sections in the agent. A worker that has rejoined, and is told something between
  them, is started twice or has its quota set before it is started (`AgentMachine.RejoinedBreaks`,
  `AgentMachine.RaceIff`; for whole runs `AgentMachine.StoriesHoldIff`).
- A rebalance of the coordinator reads the roster, sends its orders and writes the roster in separate steps, and
  rebalances overlap. An agent ordered by two that have read no roster with it is told to start twice, which makes it
  begin the run anew; that, and an order that relies on a roster since whose own order the agent has been left out, is
  all that can go wrong (`DispatchMachine.StoriesHoldIff`). An agent that stays connected is told twice exactly when two
  rebalances that read before the first roster both order it (`DispatchMachine.ConnectedStoryHoldsIff`; for two at once
  `DispatchMachine.OverlapBreaksIff`).
- An agent reports a failure as soon as one worker fails, and completion as soon as all workers that have reported
  have ended, so a run can be finished while other workers are still going, or have yet to begin
  (`PhaseFold.LooksFinishedIff`, `StatusMachine.FinishedEarlyIff`).
- A rebalance takes every agent to be running again, also one that has reported its end and has nothing more to
  report; until it does, the run is not finished (`StatusMachine.ResetWaits`).
- Blocks of ids go by a node's place in a sorted list at the time it is started. A worker or an agent that joins late
  and sorts before one already running is given ids that one is using (`AgentMachine.LateStarterSharesBlock`,
  `Dispatch.LateAgentSharesBase`); when exactly, `AgentMachine.BlocksMeetIff` and `Dispatch.BasesMeetIff` say.
- The iterations of a plan are split at the first dispatch. A worker that is started later gets a share on top of that
  (`AgentMachine.IterationsAddUpIff`), and an agent that is started later is told of no limit at all
  (`DispatchRun.IterationsLimitedIff`).
- Worker indices beyond one hundred wrap into another worker's block of ids (`IdSpace.SameIdIff`).
- `String` documents itself as the original text; padded placeholder names come back trimmed
  (`Template.PrintsOriginalIff`).
- A share of zero means "unlimited" to the engine. A cap that is split by weight can leave a node with nothing although
  there are as many units as nodes (`Apportion.OneNodeTakesAll`); exactly when it does not,
  `Apportion.NobodyGetsNothingIff` says, and `Apportion.EqualReachesAllIff` for an equal split.

## Model

| member | source | states |
|---|---|---|
| `Aggregates.MergeIsFold` | internal/metrics/aggregate.go:99-123 | For counters, trends and rates, merging two aggregates gives the one aggregate that observed both lists of values: count, sum, truthy count, extremes and every histogram bucket. |
| `Aggregates.FoldOfBag` | internal/metrics/aggregate.go:67-123 | The aggregate depends on which values were observed and how often, not on the order or the place. |
| `Aggregates.MergeCommutes` | internal/metrics/aggregate.go:99-123 | Merging two aggregates of a kind other than gauge gives the same in either order. |
| `Aggregates.ClearedIsNew` | internal/metrics/aggregate.go:127-137 | Clearing an aggregate leaves exactly what a new one is, so reusing it between flushes loses and keeps nothing. |
| `Aggregates.GaugesMergeIff` | internal/metrics/aggregate.go:114-118 | Gauge readings taken in two places add up at a merge: it gives the later reading exactly when one place has none or the latest of the first is zero, so gauges are excluded above. |
| `Aggregates.FoldMeans` | internal/metrics/aggregate.go:67-96 | What an aggregate is, figure by figure: how many values, their sum, least and greatest, how many fall in each bucket, how many were true, the latest reading. |
| `AggIndex.Aggregate.Observe` | internal/metrics/aggregate.go:67-96 | One observation in place takes the aggregate to the next step of the fold, by kind: only counters and trends touch sum, extremes and histogram. |
| `AggIndex.Aggregate.MergeFrom` | internal/metrics/aggregate.go:99-123 | Merging in place is the merge the theorems speak about; an empty other changes nothing. |
| `AggIndex.Aggregate.Reset` | internal/metrics/aggregate.go:127-137 | Zeroing in place is the clearing the theorems speak about. |
| `AggIndex.AggMap.Find` | internal/metrics/aggregate.go:171-178 | For an arbitrary hash, constant ones included, a lookup finds the aggregate of a series exactly when the index has one, and that one. |
| `AggIndex.AggMap.FindFrom` | internal/metrics/aggregate.go:171-178 | Walking a chain finds the aggregate of the series, or shows that no aggregate on the whole chain has it. |
| `AggIndex.AggMap.GetOrCreate` | internal/metrics/aggregate.go:182-198 | Lookup or insert: the index afterwards is the old map, with a new aggregate for the series added exactly if there was none. |
| `AggIndex.FileNew` | internal/metrics/aggregate.go:190-197 | Linking a new aggregate in front of its chain keeps all chains acyclic, disjoint, correctly keyed and complete. |
| `AggIndex.ChainsDisjoint` | internal/metrics/aggregate.go:160-198 | An aggregate is on the chain of one key only. |
| `AggIndex.AggMap.Each` | internal/metrics/aggregate.go:201-207 | A visit reaches every aggregate of the index exactly once, whatever order the entries come in. |
| `AggIndex.AggMap.ResetAll` | internal/metrics/aggregate.go:210-212 | Every aggregate is cleared, none is released, and the index is otherwise unchanged. |
| `RecorderMachine.RunExact` | internal/metrics/recorder.go:238-339 | Over every interleaving of recording with the steps of flushes, each aggregate in a shard, in the flush in progress or in a batch is the one that observed exactly its own list of values. |
| `RecorderMachine.StepConserves` | internal/metrics/recorder.go:238-339 | One lock section moves observations between shards, flush and batches but neither loses nor invents one; recording adds one exactly when the series is admitted. |
| `RecorderMachine.RunReachable` | internal/metrics/recorder.go:265-279 | After any run at most MaxSeries keys are admitted; while fewer are, nothing was turned away; the dropped count is the number of observations for keys not admitted. |
| `RecorderMachine.RunConserves` | internal/metrics/recorder.go:238-339 | Conservation: every observation of an admitted key is in a shard, in the flush in progress or in exactly one batch; of a key that is not admitted nothing is kept and each observation is counted as dropped. |
| `RecorderMachine.BatchesReport` | internal/metrics/recorder.go:321-338 | Over every run, no batch lists a series of which nothing was observed since the batch before. |
| `Recorder.Recorder.constructor` | internal/metrics/recorder.go:129-146 | A new recorder is the machine's initial state, with shards that share no objects. |
| `Recorder.Recorder.Admit` | internal/metrics/recorder.go:265-279 | A key is admitted if it was before or the budget has room, and the admitted set grows by it exactly then. |
| `Recorder.Recorder.Record` | internal/metrics/recorder.go:238-260 | The lock section of recording takes the machine's Record step: one shard changes, or only the dropped count does. |
| `Recorder.Recorder.BeginFlush` | internal/metrics/recorder.go:303-306 | Starting a flush clears every merged aggregate and keeps its series. |
| `Recorder.Recorder.FlushShard` | internal/metrics/recorder.go:308-319 | The lock section of one shard takes the machine's FlushShard step: everything in the shard moves into the merged aggregates, in whatever order the shard is visited. |
| `Recorder.Recorder.EndFlush` | internal/metrics/recorder.go:321-338 | The batch lists every series with something to report exactly once, and nothing else. |
| `Histogram.EncodeRLE` | internal/metrics/histogram.go:190-206 | The encoding loop gives the run-length form: each run of zeros becomes a marker and its length, other counts stand for themselves. |
| `Histogram.DecodeRLE` | internal/metrics/histogram.go:215-241 | The decoding loop accepts, rejects or asks for an impossible length, at which allocation panics, exactly as the specification says, the 64-bit wrap of its size guard included. |
| `Histogram.RoundTrip` | internal/metrics/histogram.go:190-241 | Decoding an encoding gives the counts back exactly when they are non-negative and no zero lies beyond the size limit; so it does for every non-negative list up to the limit. |
| `Histogram.EncodeDecode` | internal/metrics/histogram.go:190-241 | Re-encoding what was decoded gives the input back exactly when no two zero runs are adjacent; the re-encoding is never longer. |
| `Histogram.AcceptedBounds` | internal/metrics/histogram.go:215-241 | Every accepted input decodes to non-negative counts, at most the limit plus the input's length of them. |
| `Histogram.UnallocatableIff` | internal/metrics/histogram.go:228-236 | The size guard is passed by an impossible length exactly when, at some marker, the size so far plus the run wraps around 64 bits. |
| `Histogram.UnallocatableExample` | internal/metrics/histogram.go:228-236 | Such an input exists: one count, a marker and the greatest 64-bit run length. |
| `Histogram.DecodeHistogram` | internal/metrics/histogram.go:125-157 | A snapshot is taken exactly when its resolution is the expected one, its counts decode and there is the right number of them. |
| `Histogram.ScaleValueMonotoneIff` | internal/metrics/histogram.go:90-102 | A scaled observation stays within the trackable range, and the order of two is kept exactly when the larger one still fits 64 bits, or the smaller one is at the bottom as well: one that does not fit is counted at the bottom. |
| `Histogram.ScaleValueIs` | internal/metrics/histogram.go:90-102 | An observation is counted at the unit nearest to it inside the trackable range, at the highest one above it, and at the lowest one below it or beyond 64 bits. |
| `Wire.EncodeDelta` | internal/metrics/recorder.go:342-360 | A delta carries the aggregate's figures, with a gauge's reading as its sum and no histogram if nothing was counted in it. |
| `Wire.DecodeDelta` | internal/metrics/store.go:301-328 | A delta is read exactly when its snapshot is of this resolution and well formed; then series, kind and every figure are the ones written. |
| `Wire.EncodeKind` | internal/metrics/recorder.go:363-392 | Decoding the encoded kind gives the kind back. |
| `Wire.SendAndReceive` | internal/metrics/recorder.go:342-392 | For every layout within the decoder's limit, what a node encodes arrives as the same series and aggregate, up to finite extremes and an absent empty histogram. |
| `Wire.WrittenIsReadable` | internal/metrics/recorder.go:342-360 | Whatever is written down of an aggregate of this layout passes the decoder's checks, the size limit and the number of counts included. |
| `Wire.ReadsBack` | internal/metrics/store.go:301-328 | A delta can be read in one way only: as the series and the figures it was written from. |
| `Wire.ArrivesWhole` | internal/metrics/store.go:301-328 | What arrives of an aggregate: its kind and count, the reading of a gauge and the sum of anything else, its truthy count, its extremes and every bin. |
| `Wire.KindIff` | internal/metrics/recorder.go:363-392 | A kind is read exactly of its own code, and counters also of a code that is not known. |
| `Wire.LandsExactly` | internal/metrics/store.go:331-352 | Folding a sent aggregate into what has landed is having folded all observations first and landed them then. |
| `Fleet.AbsorbedAt` | internal/metrics/store.go:331-352 | What one batch does to one series does not depend on the order of the batch: merged if held, new if there is room, absent only if the store is full. |
| `Fleet.NodeRuns` | internal/metrics/recorder.go:238-339 | A node's part of a fleet's run is a run of its recorder. |
| `Fleet.MergeIsExact` | internal/metrics/store.go:286-352 | The distributed merge is exact: over every spread of observations over nodes and shards, every interleaving of flushes and every order of accepted batches, a series the store holds is the one aggregate that observed exactly the observations of all accepted batches; a series cut by MaxSeries is wholly absent. |
| `Fleet.SameAsOneProcess` | README.md:36-39 | Once every node is drained and every batch accepted, each series the store holds equals what a single process would have that observed, in any order at all, everything the nodes admitted; a series it does not hold was admitted nowhere, or the store is full. |
| `Fleet.ListedArrives` | internal/metrics/recorder.go:333-338 | The batch a flush lists is, delta by delta, the batch the store ingests, each series once. |
| `Fleet.StoreAbsorbs` | internal/metrics/store.go:286-352 | Ingesting a batch as it arrives, delta by delta, gives exactly the aggregates of the fleet's delivery step. |
| `Pipeline.FlushAndIngest` | internal/metrics/recorder.go:303-338 | End to end: listing a flush, encoding it, decoding it and ingesting it leaves the store's aggregates those of the fleet's delivery step, or refuses the batch as a whole; nothing is cut short. |
| `Pipeline.SentIsDelivered` | internal/metrics/store.go:286-352 | However the deltas of a written batch are read, all of them are, each as the aggregate it was written from, and together they do what the delivery of the batch does. |
| `Pipeline.RunIsSendable` | internal/metrics/recorder.go:238-339 | Over every use of a recorder, what it flushes can be sent as long as no series got two to the 63 observations. |
| `Store.Store.constructor` | internal/metrics/store.go:223-241 | A new store shows the window machine's initial state and holds nothing. |
| `Store.AbsorbInto` | internal/metrics/store.go:331-352 | A delta lands on the aggregate of its series, is the first of a new one, or is turned away, exactly when the series is new and the cap is reached. |
| `Store.Store.MergeCumulative` | internal/metrics/store.go:331-352 | The same on the store's index, with turned-away deltas counted. |
| `Store.Store.IngestAll` | internal/metrics/store.go:286-290 | Deltas are applied up to the first one that cannot be read; what came before stays applied to both the aggregates and the bucket. |
| `Store.ReadFits` | internal/metrics/store.go:306-313 | Whatever could be read has histograms of this layout, as the laws about charts ask. |
| `Store.Store.Ingest` | internal/metrics/store.go:248-294 | A batch takes the window machine's step, is refused exactly if it has no start or its bucket is past its grace, and is reported in full exactly if every delta could be read; the run's first start, each node's dropped count, the refused endpoints and the series turned away are counted along. |
| `Store.Store.BucketFor` | internal/metrics/store.go:482-505 | The open bucket of an index is returned, or made unless the index is past its grace; nothing else changes. |
| `Store.Store.CloseStale` | internal/metrics/store.go:512-529 | Closing takes the window machine's step: the buckets past their grace are finalised in ascending order and forgotten. |
| `Store.Store.Timeline` | internal/metrics/store.go:566-579 | The timeline is the retained end of the whole finalised history, filtered by start. |
| `Window.NothingLost` | internal/metrics/store.go:248-294 | After any run, the accepted batches of an index are, in order, those in its finalised buckets followed by those in its open one. |
| `Window.EveryBatchCounts` | internal/metrics/store.go:253-275 | Over every run, every dated batch either gets a bucket or is counted as late, and lateness goes by the latest dated start. |
| `Window.PastGraceIff` | internal/metrics/store.go:489-520 | From the epoch on, a bucket is past its grace exactly when its whole resolution and the grace have passed. |
| `Window.OrderlyIff` | internal/metrics/store.go:482-529 | Over every run, no index is finalised twice, the finalised indices ascend and every open bucket comes after them, exactly when every batch that opens a bucket does so above all that have been finalised, which is what bucketFor means to ensure by its cutoff. |
| `Window.PromptOpensAbove` | internal/metrics/store.go:482-529 | Every run is in order whose new buckets are within their grace of every clock that buckets have been closed by, however far the clock runs ahead of the batches. |
| `Window.TimelyOpensAbove` | internal/metrics/store.go:482-529 | A run is also in order as long as no close is early. |
| `Window.OnTimeIsTimely` | internal/metrics/store.go:512-523 | A close whose clock is not ahead of the latest batch is never early. |
| `Window.ReopenableIff` | internal/metrics/store.go:487-494 | Over every run, some batch can open a bucket under a finalised index exactly when one of them, not open again, is still within its grace of the latest batch: lateness is measured from that on arrival and from the clock on closing. |
| `Window.ReopenableIffEarly` | internal/metrics/store.go:489-523 | After whatever came before, a close brings that about exactly when an open bucket lies between the cutoff of the latest batch and the cutoff of the clock, and never ends it. |
| `Window.BreakableIffReopenable` | internal/metrics/store.go:482-529 | As long as a run is in order, some batch can break the order exactly when some batch can reopen a bucket. |
| `Window.EarlyRepeats` | internal/metrics/store.go:482-529 | After such a close, the batch that opened the bucket, sent once more, and another close finalise the same index twice. |
| `Window.GridFacts` | internal/metrics/store.go:476-498 | A start is the latest point of its grid not after the time; an index counts whole resolutions since the epoch, truncating toward it. |
| `Window.StartsFollowIffAligned` | internal/metrics/store.go:476-498 | Bucket starts are in the order of their indices exactly when the resolution divides the zero time: indices count from the Unix epoch, starts are rounded from the year 1. |
| `Ring.Ring.File` | internal/metrics/store.go:543-552 | Filing appends to the history; the ring holds its last buckets, at most as many as its capacity, in order. |
| `Ring.Ring.Timeline` | internal/metrics/store.go:566-579 | The loop over the ring returns the last buckets of the history that start after the given time. |
| `Ring.NewerThanZero` | internal/metrics/store.go:564-579 | Asked from the zero time, the timeline leaves nothing out: it is exactly the last buckets the ring retains. |
| `Ring.Feed.TicksSince` | internal/coordinator/stream.go:175-201 | A publication returns the retained buckets after the watermark and moves the watermark to the newest of them. |
| `Ring.PublishOnce` | internal/coordinator/stream.go:175-201 | With rising starts a publication sends exactly the unsent buckets still in the ring, and marks everything published. |
| `Ring.StreamAccounts` | internal/coordinator/stream.go:175-201 | Over every order of filing and publishing, what was sent, what was missed and what is pending add up to the history, and while nothing was missed the stream is a prefix of it. |
| `Ring.StreamCompleteIff` | internal/coordinator/stream.go:175-201 | With rising starts, after a publication the stream is the whole history, in order and each bucket once, exactly when no more than a ringful was ever pending. |
| `Ring.BehindIsNeverSent` | internal/coordinator/stream.go:175-201 | A bucket whose start is not past the watermark when it is filed is never sent, whatever is filed and published afterwards. |
| `Ring.TwinIsSkipped` | internal/coordinator/stream.go:175-201 | Two buckets of one start with a publication between them: the second is never sent, although nothing was pending too long. |
| `Ring.StreamCompleteIffClean` | internal/coordinator/stream.go:175-201 | For starts in any order, after a publication the stream is the whole history exactly when every bucket started past the watermark it was filed at and no more than a ringful was ever pending. |
| `Published.FinalisedRiseIff` | internal/metrics/store.go:476-529 | On an aligned grid, with batches from the epoch on, the finalised buckets have strictly rising starts, as the stream needs, exactly when their indices ascend; so they do whenever new buckets open above the finalised ones. |
| `Published.RiseIffAligned` | internal/metrics/store.go:476-529 | Starts rise with indices in every run from the epoch on exactly on an aligned grid: with any other resolution some run finalises two buckets in order whose starts do not rise. |
| `Published.StreamIsFinalisedIff` | internal/coordinator/stream.go:175-201 | After a publication the stream of a run is its finalised history exactly when every bucket started past the watermark it was filed at and no more than a ringful was ever pending; in a run whose new buckets open above the finalised ones, the latter alone decides. |
| `Buckets.PointIsSum` | internal/metrics/store.go:355-450 | Every figure of every point (count, truthy count, sum, each histogram bin) is the sum over the deltas that belong to it. |
| `Buckets.RollUp` | internal/metrics/store.go:359-368 | A metric's run-wide figures are the sums of its per-scenario points and of the deltas without a scenario. |
| `Buckets.PointExtremes` | internal/metrics/store.go:432-439 | A point's extremes are the running ones over its non-empty deltas, and its minimum is the true one exactly when there is a negative value, or no zero, or a zero last. |
| `Buckets.StatusAddsUp` | internal/metrics/store.go:370-374 | The status classes together count exactly the requests that carry a status. |
| `Buckets.ClassIsCount` | internal/metrics/store.go:370-374 | Each status class counts exactly the requests of its own statuses. |
| `Buckets.ClassIsFirstDigit` | internal/metrics/store.go:453-473 | The classes 1xx to 5xx go by the first digit, zero is an error, and everything else is other. |
| `Buckets.EndpointAddsUp` | internal/metrics/store.go:401-410 | A line's requests, failures and durations with their number are sums over the deltas of its name, each from its own metric. |
| `Buckets.EndpointsComplete` | internal/metrics/store.go:376-411 | An endpoint charted in a bucket has everything ever reported under its name; one that is not was never let in, and then the bucket is full. |
| `StoreBuckets.BucketShows` | internal/metrics/store.go:276-290 | A bucket charts all deltas of all its batches, starts where its first batch rounds to, and its VU count is the 32-bit sum of each node's latest report. |
| `StoreBuckets.ReportVUs` | internal/metrics/store.go:278-284 | Replacing one node's figure and adding up again gives the sum in 32 bits, whatever the order of adding. |
| `StoreBuckets.MergeBucket` | internal/metrics/store.go:355-379 | The branches on scenario, status and name chart a delta as the sums above assume. |
| `StoreBuckets.AddToBucket` | internal/metrics/store.go:414-450 | Accumulating under one key, with gauges bypassing extremes and histogram, is the point step the sums above assume. |
| `StoreBuckets.AddEndpointPoint` | internal/metrics/store.go:382-411 | Only the three charted metrics count, and a new name is refused, and reported as refused, exactly once the cap is reached. |
| `StoreBuckets.RefusalsAddUp` | internal/metrics/store.go:392-397 | Counting refused endpoints batch by batch is counting them over everything that landed in a bucket. |
| `StoreBuckets.EarliestIsLeast` | internal/metrics/store.go:261-263 | A run's start is the earliest start of a batch that has one, whatever order batches come in. |
| `StoreBuckets.Finalise` | internal/metrics/store.go:533-541 | Percentiles are read off exactly the histograms that belong to a point and hold something; histograms and node figures are released, everything else is kept. |
| `Finished.FinalShows` | internal/metrics/store.go:533-541 | A finalised bucket shows exactly what landed in it: its points count, sum and running extremes of their own deltas, the counts for percentiles, requests by status class and by endpoint, and the 32-bit sum of the virtual users its nodes last reported. |
| `Finished.TimelineShows` | internal/metrics/store.go:512-552 | So does every bucket ever finalised, over every run. |
| `Finished.RefusedAreUncharted` | internal/metrics/store.go:392-397 | The deltas counted as refused are exactly those of endpoints that are not charted. |
| `Finished.TurnedAwayAreUnheld` | internal/metrics/store.go:331-339 | The deltas counted as turned away by the cap on series are exactly those of series the store does not hold afterwards. |
| `Finished.GaugeIsLatest` | internal/metrics/store.go:343-350 | A gauge the store holds shows the latest reading that arrived, not a sum, and counts all of them. |
| `Finished.DroppedIsLatest` | internal/metrics/store.go:267-269 | What is noted of a node is the latest figure it reported of observations turned away, and nothing if it never reported any. |
| `Extremes.LowestIff` | internal/metrics/store.go:433-435 | A running minimum with zero as unset is the minimum exactly when there is a negative value, or no zero, or a zero last. |
| `Extremes.HighestIs` | internal/metrics/store.go:436-438 | A running maximum started at zero is the greatest value, or zero if all are below. |
| `Totals.Aggregate` | internal/metrics/store.go:657-696 | The threshold view folds every series of the metric once, in the order visited, and is absent exactly if there is none. |
| `Totals.Totals` | internal/metrics/store.go:707-757 | One pass gives for every metric the fold of its own series in the order visited, and for no other metric anything. |
| `Totals.AggregateMeans` | internal/metrics/store.go:666-691 | What thresholds are judged by, of any series in any order: the count, the sum, and the average and rate, which times the count are the sum and the number of truthy observations; without observations both are zero. |
| `Totals.AggregateShows` | internal/metrics/store.go:674-694 | And of series that are no gauges: the running minimum, the greatest value, and the merged histogram bin by bin. |
| `Totals.TotalsMean` | internal/metrics/store.go:715-752 | What the totals show: the same figures, with the readings of gauges as their sum, and the minimum of the non-empty series, or of those and a zero if the first one visited is empty. |
| `Totals.TotalsShow` | internal/metrics/store.go:731-753 | And the greatest value and the merged histogram bin by bin. |
| `Totals.GaugesAgreeIff` | internal/metrics/store.go:668-728 | For gauges thresholds see a sum and an average of zero, whatever the readings; the totals show their sum, and the two agree exactly when the readings cancel out. |
| `Totals.IndexViewsAgree` | internal/metrics/store.go:657-757 | What both methods promise of one index, together: whatever order each visited in, they find the same metrics and show the same count, sum, average, rate, maximum and histogram. |
| `Totals.VisitsAgree` | internal/metrics/store.go:657-757 | Two visits of the index see the same series of a metric, however often and whatever the orders. |
| `Totals.ViewsAgree` | internal/metrics/store.go:657-757 | For a metric that is no gauge and any two visiting orders, both views have equal count, sum, average, rate, maximum and merged histogram. |
| `Totals.MinimaAgreeIff` | internal/metrics/store.go:674-739 | The two minima agree exactly when some minimum is negative, or no series holds anything, or the last one visited is zero, or none is zero and the totals' first series holds something. |
| `Totals.PositiveMinimaAgree` | internal/metrics/store.go:674-739 | In particular they agree when every series holds something and only positive values. |
| `Labels.ReplacePair` | pkg/loadwave/labels.go:93-103 | Overwriting in place reports exactly whether the key was there and leaves the pairs representing the updated tags, or untouched. |
| `Labels.SortPairs` | pkg/loadwave/labels.go:106-117 | Insertion sort in place leaves the same tags with strictly ascending keys. |
| `Labels.BuildLabels` | pkg/loadwave/labels.go:64-90 | The pairs built have strictly ascending distinct keys and represent the base overlaid with the extra pairs, the last write of a key winning. |
| `Labels.NewLabels` | pkg/loadwave/labels.go:40-48 | The tags of a label set are the arguments read left to right, the last value of a key winning. |
| `Labels.With` | pkg/loadwave/labels.go:53-61 | The result carries the receiver's tags overlaid with the arguments; the receiver, an immutable value, is untouched. |
| `Labels.LastWriteWins` | pkg/loadwave/labels.go:36-61 | A tag that is written has the value it was last written with, and every other one is as it was before. |
| `Labels.Get` | pkg/loadwave/labels.go:126-133 | A lookup finds a tag exactly if the set carries it, with its value. |
| `Labels.Map` | pkg/loadwave/labels.go:152-161 | The map is exactly the tags. |
| `Labels.LabelsFromMap` | pkg/loadwave/labels.go:165-174 | Whatever order the map is read in, the result carries exactly its tags. |
| `Labels.CanonicalUnique` | pkg/loadwave/labels.go:64-117 | There is only one canonical list of pairs for given tags. |
| `Labels.SamePairsIffSameTags` | pkg/loadwave/labels.go:136-138 | Two label sets have the same pairs exactly when they carry the same tags, however they were built. |
| `Labels.EqualIffSameTags` | pkg/loadwave/labels.go:136-138 | Comparing hashes first decides equality of tags, whatever the hash. |
| `Labels.RoundTrip` | pkg/loadwave/labels.go:152-174 | A label set read back from its map is itself. |
| `Apportion.Largest` | internal/apportion/apportion.go:26-78 | The shares add up to the total, each is the floor of the exact share or one more, and the extra units go to the largest discarded fractions, ties to the lower index. |
| `Apportion.FloorOrCeiling` | internal/apportion/apportion.go:26-78 | Each claimant gets the floor or the ceiling of its exact proportional share, and the exact share when that is whole. |
| `Apportion.Optimal` | internal/apportion/apportion.go:26-78 | No other split of the total into non-negative whole shares is nearer, in total distance, to the exact proportional shares. |
| `Apportion.Monotone` | internal/apportion/apportion.go:63-75 | A larger weight, or an equal one at a lower index, never gets less. |
| `Apportion.Unique` | internal/apportion/apportion.go:26-78 | The rule leaves no freedom: any two splits of the same total by the same weights are equal. |
| `Apportion.SortClaims` | internal/apportion/apportion.go:63-70 | The claims come out in serving order, each once. |
| `Apportion.Equal` | internal/apportion/apportion.go:82-91 | Equal splitting gives everybody the quotient, and one more to the lowest indices; of a negative total everybody gets nothing. |
| `Apportion.EqualSplit` | internal/apportion/apportion.go:82-91 | With unit weights the largest-remainder split is that closed form, and adds up to the total. |
| `Apportion.NobodyGetsNothingIff` | internal/engine/engine.go:180-187 | A weighted split leaves nobody with weight a share of zero, which the engine would read as unlimited, exactly when the last and lightest claimant's exact share is at least one or fewer than the units left over are served before it. |
| `Apportion.ServedIff` | internal/apportion/apportion.go:62-76 | A claimant gets a unit on top of its floor exactly when fewer than the units left over are served before it, by larger fraction and then lower index. |
| `Apportion.OneNodeTakesAll` | internal/coordinator/coordinator.go:302-309 | Two units over capacities of one hundred and one all go to the first: as many units as nodes do not reach every node. |
| `Apportion.EqualReachesAllIff` | internal/apportion/apportion.go:80-91 | An equal split leaves no share zero exactly when there is at least one unit for each. |
| `Executor.NewConstant` | internal/engine/executor.go:64-80 | A constant profile is accepted exactly if it has virtual users and an end. |
| `Executor.NewRamping` | internal/engine/executor.go:125-150 | A ramping profile is accepted exactly if it has stages, all of positive length, and rises above zero; its stages keep lengths and targets. |
| `Executor.ProfileTargetAt` | internal/engine/executor.go:82-175 | The loop over the stages computes the piecewise interpolation, zero before the start and from the end on. |
| `Executor.TargetInStage` | internal/engine/executor.go:161-173 | Inside a stage the target is the rounded interpolation between the stage's two levels. |
| `Executor.SomeStage` | internal/engine/executor.go:161-174 | Every instant before the end falls into a stage, so the fall-through zero is never used there. |
| `Executor.ConstantHoldsIff` | internal/engine/executor.go:82-90 | A constant profile asks for all its users exactly from the start until its duration is over, or for good without one, and otherwise for none. |
| `Executor.TargetWithinPeak` | internal/engine/executor.go:82-178 | The target stays between zero and the peak at all times. |
| `Executor.PeakReachedIff` | internal/engine/executor.go:125-178 | A ramp reaches its peak at some instant exactly if a stage before the last ends at it, or the last stage climbs to it taking at least two nanoseconds per virtual user: at its very end the target is zero already. |
| `Executor.MonotoneInStage` | internal/engine/executor.go:161-173 | Within a stage the target moves in one direction only. |
| `Executor.HitsStageTargets` | internal/engine/executor.go:161-173 | At the end of every stage but the last the target is the stage's own. |
| `Executor.Scaled.Rescale` | internal/engine/executor.go:238-258 | A rescale starts the ramp at the quota of that instant, or sets the new quota at once without a ramp. |
| `Executor.Scaled.QuotaLocked` | internal/engine/executor.go:268-278 | The quota at an instant is the interpolation of the ramp in force. |
| `Executor.Scaled.TargetAt` | internal/engine/executor.go:280-304 | A node's target is its rounded share of the global one, at least one when both are positive, and its whole quota at the peak. |
| `Executor.QuotaBounded` | internal/engine/executor.go:238-278 | Over any sequence of rescales at non-decreasing times the quota stays between the least and the greatest non-negative quota ever set. |
| `Executor.RampEases` | internal/engine/executor.go:238-278 | A ramped rescale does not jump at its start, moves one way, and equals the new quota from the ramp's end on. |
| `Executor.NodeBound` | internal/engine/executor.go:280-304 | One node stays within its quota, less than one virtual user above its exact share and within half a one below. |
| `Executor.FleetTracksCurve` | internal/engine/executor.go:280-304 | The nodes' targets add up to the quota sum at the peak, and below it to the exact share within half a virtual user per working node underneath and less than one each above. |
| `Executor.FleetFollowsProfile` | internal/coordinator/coordinator.go:297-325 | Split over agents by capacity and over workers equally, nothing of the target is lost, the workers together reach exactly the target at the peak, and track the curve below it. |
| `Pool.Engine.StartVU` | internal/engine/engine.go:416-447 | A virtual user is appended to its group with the next id, and the next id moves on. |
| `Pool.Engine.ResizeGroup` | internal/engine/engine.go:401-412 | A group either only gains virtual users at its end or only loses its latest, until it has its share. |
| `Pool.Engine.Resize` | internal/engine/engine.go:393-413 | After a resize the groups have the apportioned shares, survivors are an unchanged prefix, new ids are above every old one, and nobody who was asked to stop is in the pool. |
| `Pool.ResizeNumbers` | internal/engine/engine.go:393-447 | Over any groups and shares, ids stay distinct through a resize and are never reused. |
| `Pool.ResizeKeeps` | internal/engine/engine.go:393-413 | A resize keeps the pool in order: everyone numbered apart, everyone retired out of it. |
| `IdSpace.StaysInAgent` | internal/idspace/idspace.go:27-48 | A worker's block lies inside its agent's, whatever the worker's index. |
| `IdSpace.SameIdIff` | internal/idspace/idspace.go:27-48 | Two allocations get the same id exactly when agent, worker index modulo one hundred and allocation number are the same. |
| `IdSpace.HundredWorkersApart` | internal/idspace/idspace.go:15-24 | With at most one hundred workers to an agent, ids of distinct workers never collide. |
| `Lifecycle.TrimmedKeeps` | internal/coordinator/coordinator.go:889-899 | Trimming leaves the last runs begun, as many as the history allows, and never has to stop early at a live one. |
| `Lifecycle.RunKept` | internal/coordinator/coordinator.go:258-275 | Over every interleaving of lock sections, order and table hold the same runs, each once and no more than the history allows; every run but the last begun is over, and the last is the active one. |
| `Lifecycle.OneLive` | internal/coordinator/coordinator.go:258-275 | At most one run is live; it is the active one and was begun last. |
| `Lifecycle.NeverLost` | internal/coordinator/coordinator.go:889-899 | No step makes the coordinator forget a live run. |
| `Lifecycle.RunLater` | internal/coordinator/run.go:174-196 | Whatever follows, a run that is over keeps phase, end and reasons; a breach is never taken back; the first start and the first stop stand. |
| `Lifecycle.EndedByOneStep` | internal/coordinator/coordinator.go:575-625 | Why a run is over: phase, end, reason and failure are those of one step, and that step carried out what an earlier look at the run had seen, every participant done or the stop overdue. |
| `Lifecycle.LiveHasNoEnd` | internal/coordinator/run.go:188-193 | A run that is still going has no end, no reason and no failure noted. |
| `RunRecord.RunRecords` | internal/coordinator/run.go:174-196 | Over any steps: a live run shows the phase in progress it was last put into, when it first ran and when it was first asked to stop; and any run the latest peak, the ramp no dispatch has taken yet, whether a threshold was ever breached, and its grace. |
| `RunRecord.RosterStands` | internal/coordinator/run.go:227-249 | Until another roster is written, reports leave the quotas and marks of the last one alone, and add nobody who is marked. |
| `RunRecord.BegunWith` | internal/coordinator/coordinator.go:258-275 | A run that was just begun is pending, with the plan's peak and grace, and has nobody on its roster and nothing else on record. |
| `Lifecycle.StopIsNoted` | internal/coordinator/run.go:184-187 | From the first stop on, a run is over or has the time of that stop noted. |
| `Lifecycle.StopTimesOut` | internal/coordinator/coordinator.go:610-625 | After the first stop of a live run, any check at least its grace and the margin later leaves the run over for good once the ticker has acted on it, whatever comes before the check, between check and act, and after. |
| `Lifecycle.AbortedOnlyIfOverdue` | internal/coordinator/coordinator.go:610-625 | No run is aborted before its time: when it was looked at, its grace and the margin had passed since its first stop. |
| `RunRecord.AbortsAfterPlanGrace` | internal/coordinator/run.go:289-294 | The grace is the plan's: an aborted run was looked at once the grace it was begun with, or half a minute if the plan has none, and twenty seconds had passed since it was first asked to stop. |
| `RunRecord.PlanGraceAborts` | internal/coordinator/coordinator.go:610-625 | And a live run that is looked at then is over once the ticker has acted. |
| `Lifecycle.DecidedEnds` | internal/coordinator/coordinator.go:514-519 | Once the ticker has acted on what it decided about a run, the run is over, whatever handlers did in between. |
| `Lifecycle.TimesOutStays` | internal/coordinator/run.go:278-294 | A check that finds a run overdue would find so at any later time too. |
| `Coordinator.Run.SetPhase` | internal/coordinator/run.go:174-196 | The setter takes the machine's step and reports whether the run was still live. |
| `Coordinator.Run.UpdateParticipant` | internal/coordinator/run.go:238-249 | A report changes the phase of that agent's entry and nothing else, making an entry if there is none. |
| `Coordinator.Run.SetThresholds` | internal/coordinator/run.go:264-274 | The breach flag is set if some evaluated threshold failed, and otherwise stays as it was. |
| `Coordinator.Coordinator.constructor` | internal/coordinator/coordinator.go:165-175 | A new coordinator is the machine's initial state. |
| `Coordinator.Coordinator.BeginRun` | internal/coordinator/coordinator.go:258-275 | The locked section of starting takes the machine's step and is refused exactly while a run is live. |
| `Coordinator.Coordinator.TrimHistory` | internal/coordinator/coordinator.go:889-899 | The eviction loop computes the machine's trimming. |
| `Coordinator.Coordinator.StopRun` | internal/coordinator/coordinator.go:362-375 | A stop is accepted exactly for a known live run, and takes the machine's step with the given or the default reason. |
| `Coordinator.Coordinator.OnRunStatus` | internal/coordinator/coordinator.go:775-794 | A report takes the machine's two steps: the participant's phase, and the run to running if that is what was reported. |
| `Coordinator.Coordinator.TickRun` | internal/coordinator/coordinator.go:539-571 | A tick takes the machine through its sections on the active run, each of them open to interleaving: thresholds, the stop they may ask for, completion, the stop timeout. |
| `Coordinator.TickSettles` | internal/coordinator/coordinator.go:539-571 | What those sections achieve: nothing is taken back, no other run is touched, a run whose participants are done or whose stop is overdue is over, and an abort leaves a run that is still going asked to stop. |
| `Coordinator.Coordinator.CheckCompletion` | internal/coordinator/coordinator.go:575-601 | A look at the participants and, exactly if all are done, a last judgement and the end: the machine's steps, failed if all failed and completed otherwise, with a reason that tells these cases apart. |
| `Coordinator.Coordinator.CheckStopTimeout` | internal/coordinator/coordinator.go:610-625 | A look at the clock and, exactly if grace and margin have passed since the first stop, a last judgement and the abort: the machine's steps. |
| `Coordinator.Run.Survey` | internal/coordinator/coordinator.go:576-591 | Whatever order the participants are counted in, the verdict is the machine's outcome with the number of failures. |
| `Coordinator.Coordinator.DispatchFirst` | internal/coordinator/coordinator.go:278-355 | The first dispatch tells everybody connected to start, with largest-remainder shares of peak, rate and iterations and an id block by place; the roster marks all as told, those that could not be reached as failed and the others as pending, and the run is starting. |
| `Coordinator.Coordinator.Rebalance` | internal/coordinator/coordinator.go:435-512 | Two lock sections, one that reads and takes the ramp and one that writes the roster: every connected agent is told exactly one thing, to start or only its new quota; peak and rate are largest-remainder shares, and the quotas add up to the peak. |
| `Coordinator.Coordinator.ScaleRun` | internal/coordinator/coordinator.go:397-427 | A scale is accepted exactly for a known live run and non-negative figures; the new peak and the rate are split over everyone connected with the ramp, or the ramp waits for the next dispatch if nobody is. |
| `Dispatch.DispatchedByCapacity` | internal/coordinator/coordinator.go:460-469 | The peak and the rate of a rebalance are split by what the agents advertised, one at least: each share is the exact part by capacity rounded down or up, and an agent with more capacity never gets less. |
| `Dispatch.FirstByCapacity` | internal/coordinator/coordinator.go:302-310 | So are the peak, the rate and the iterations of the first dispatch. |
| `Dispatch.FleetFollowsDispatch` | internal/coordinator/coordinator.go:460-469 | Once a rebalance has split a run over agents of any capacities and every agent its share over its workers, nothing of the peak is lost, the workers together run exactly the peak where the profile is at its own, and track the curve below it. |
| `Dispatch.GoesByLastRoster` | internal/coordinator/coordinator.go:446-458 | What a rebalance goes by is the roster last written, whatever agents have reported since: an agent is sent only a quota exactly if that roster lists it. |
| `Dispatch.QuotasAddUp` | internal/coordinator/coordinator.go:302-309 | Whatever capacities were advertised, the quotas add up to the peak. |
| `Dispatch.DispatchIsSend` | internal/coordinator/coordinator.go:466-511 | A dispatch's orders are those of a rebalance that has read the run, its starts carry no limit on iterations, and its roster marks exactly the agents listed as told. |
| `Dispatch.BasesMeetIff` | internal/coordinator/coordinator.go:466-511 | Two agents told to start a run get the same first id exactly when they were started from the same place in their lists; otherwise their blocks are apart. |
| `Dispatch.LateAgentSharesBase` | internal/idspace/idspace.go:6-13 | An agent that joins late and takes a place another was started from is given that one's ids while that one keeps running, although ids are meant never to collide. |
| `Dispatch.FirstLimitsIff` | internal/coordinator/coordinator.go:310-337 | The first dispatch hands out all iterations, and leaves no agent without a limit on them exactly when the last agent of least capacity is apportioned one: a share of zero stands for no limit. |
| `DispatchRun.FirstIsSend` | internal/coordinator/coordinator.go:297-355 | The first dispatch's orders are those of a rebalance that has read an empty roster, each with the agent's share of iterations, and its roster marks exactly the agents listed as told. |
| `DispatchRun.BooksBalance` | internal/coordinator/coordinator.go:297-355 | At every moment of every run of overlapping dispatches, the iterations handed out are the shares of exactly those agents the first dispatch has sent an order. |
| `DispatchRun.IterationsLimitedIff` | internal/coordinator/coordinator.go:310-502 | Over every run of overlapping dispatches: once the first one is over, exactly the plan's iterations have been handed out; and no agent was ever told to start without a limit on them, exactly when every later rebalance that sent an agent an order had read a roster with it, and the first split left nobody without. |
| `DispatchMachine.StoriesHoldIff` | internal/coordinator/coordinator.go:435-512 | Over every interleaving of reading the roster, sending each order and writing the roster, an agent is told to start once, then only its quota, until it is left out, except exactly in two cases: two rebalances that read no roster with it both order it and it is not left out in between; or one that read a roster with it orders it although it was left out after that roster's own order to it, and nobody has ordered it since. |
| `DispatchMachine.ConnectedStoryHoldsIff` | internal/coordinator/coordinator.go:435-512 | An agent that every rebalance lists is told to start twice, or otherwise misled, exactly when two rebalances that read before the first roster was written both send it an order. |
| `DispatchMachine.CurrentStoryHolds` | internal/coordinator/coordinator.go:435-512 | Overlap does no harm to an agent as long as each order to it goes by what the roster still says, no other rebalance in hand has told it to start, and no roster lists it after another has left it out since its own order. |
| `DispatchMachine.SerialIsCurrent` | internal/coordinator/coordinator.go:435-512 | So it is with rebalances of which none reads before the one under way has written. |
| `DispatchMachine.SerialStoriesHold` | internal/coordinator/coordinator.go:435-512 | So rebalances of which none reads before the one under way has written keep every agent's story. |
| `DispatchMachine.OverlapBreaksIff` | internal/coordinator/coordinator.go:702-727 | When a second rebalance reads before the first has written, its order to an agent breaks the agent's story exactly if the first one has by then written a roster that differs in this agent from the one read, or has not, and has told this new agent to start. |
| `AgentMachine.SharesAddUp` | internal/agent/agent.go:670-714 | Every rebalance with a worker connected hands out the agent's virtual users and its rate exactly, no two shares more than one apart, one message to each worker; the first one hands out all iterations. |
| `AgentMachine.QuotaIsShared` | internal/agent/agent.go:453-470 | After a quota for the run in progress, whatever joins, leaves, rebalances and orders for other runs follow, a rebalance shares out exactly those virtual users and that rate, worker by worker in that run; the first one that reaches somebody passes the ramp on unchanged, later ones none. |
| `AgentMachine.PlanIsShared` | internal/agent/agent.go:415-430 | After a run begins, until a quota comes, a rebalance shares out exactly the plan's virtual users and rate, with no ramp. |
| `AgentMachine.EndSilences` | internal/agent/agent.go:776-780 | After the run in progress has ended, nobody is told anything until another one begins. |
| `AgentMachine.IterationsAddUpIff` | internal/agent/agent.go:677-711 | Over every run, the iterations handed out to workers are those of the plan, and never fewer once anybody was told to start, exactly when no later rebalance started a worker at a place below their number: a late starter gets a share on top. |
| `AgentMachine.StoriesHoldIff` | internal/agent/agent.go:650-719 | Over every interleaving of joins, leaves, reconnections, quota changes and rebalances a worker is told to start once in a run, then only its quota, until it leaves, exactly when at every rebalance each worker told before has since done both halves of a leave or neither. |
| `AgentMachine.RaceIff` | internal/agent/agent.go:849-861 | From a state with a run, reached without the worker being told anything during a leave of its own, two rebalances around the other half of a leave break a connected worker's story if and only if a leave of that worker is half done. |
| `AgentMachine.QuietStoriesHold` | internal/agent/agent.go:650-719 | In particular a story holds if its worker is never told anything while a leave of it is half done, reconnections in between included. |
| `AgentMachine.RejoinedBreaks` | internal/agent/agent.go:849-861 | From any state at all with a run, a connected worker with a half-done leave is started twice, or set a quota before it is started, by a rebalance, the other half, and a rebalance. |
| `AgentMachine.DisplacedIsHarmless` | internal/control/server.go:322-349 | A session displaced by a reconnection is harmless for good: at any later time its end evicts nobody, forgets nothing and changes nothing. |
| `AgentMachine.RampOnce` | internal/agent/agent.go:715-719 | After a rebalance no message carries a ramp until another quota change comes. |
| `AgentMachine.BlocksMeetIff` | internal/agent/agent.go:697-708 | Two workers told to start in one run have ids in common exactly when their places in the lists they were started from agree modulo one hundred. |
| `AgentMachine.LateStarterSharesBlock` | internal/idspace/idspace.go:6-13 | A worker that joins after the first dispatch and takes a place other than the last is started with the ids of the worker started from that place, which keeps running. |
| `Agent.SessionRegistry.Add` | internal/control/server.go:322-332 | The session becomes the current one of its id; the one it displaces, if any, is returned and closed. |
| `Agent.SessionRegistry.Remove` | internal/control/server.go:340-349 | A session is removed exactly if it is still the current one of its id. |
| `Agent.SessionRegistry.Get` | internal/control/server.go:352-357 | A lookup finds the current session of an id exactly if there is one. |
| `Agent.SessionRegistry.All` | internal/control/server.go:360-369 | Every current session is listed, each once. |
| `Agent.Agent.OnJoin` | internal/agent/agent.go:832-833 | The registry section of joining takes the machine's step. |
| `Agent.Agent.Unregister` | internal/agent/agent.go:849-854 | The first section of leaving takes the machine's step and stops there for a displaced session. |
| `Agent.Agent.ForgetDispatch` | internal/agent/agent.go:856-860 | The second section of leaving takes the machine's step. |
| `Agent.Agent.BeginRun` | internal/agent/agent.go:415-430 | A new run replaces the old one with nobody told to start. |
| `Agent.Agent.EndRun` | internal/agent/agent.go:776-780 | The run that was stopped ends; a newer one that has replaced it is left alone. |
| `Agent.Agent.OnSetQuota` | internal/agent/agent.go:453-470 | Virtual users, rate and ramp are taken exactly for the run in progress. |
| `Agent.Agent.Rebalance` | internal/agent/agent.go:650-719 | The locked section takes the machine's step for the workers connected, and returns the messages of that step: shares of virtual users, rate and iterations, and for starters their block of ids. |
| `PhaseFold.FoldPhases` | internal/agent/agent.go:946-977 | Whatever order the workers are counted in, the agent reports a failure if any worker failed, completion exactly if there are workers and all have ended, and the sum of their iterations. |
| `PhaseFold.LooksFinishedIff` | internal/agent/agent.go:914-977 | An agent can look finished while a worker it told to start is still going, exactly when another worker failed, or all that have reported have ended and one has not reported yet. |
| `StatusMachine.FinishedIff` | internal/coordinator/coordinator.go:575-601 | Over every interleaving of reports, losses, leaves and rosters, the coordinator finishes a run exactly when what it shows of each participant goes back to a failure or to a moment at which all the agent's workers heard of had ended, and calls it failed exactly when it goes back to a failure for all. |
| `RunStatus.ShownAlong` | internal/coordinator/coordinator.go:775-794 | Over every interleaving of the run's lifecycle with the reporting side and with other runs, the participants of the run are the agents shown there, in the phases shown. |
| `RunStatus.CompletionMeans` | internal/coordinator/coordinator.go:575-601 | What it means that a run is completed or failed, from the coordinator's history down to the workers: at some earlier moment what it showed of every participant went back to a failure, or to a time at which all the agent's workers heard of had ended; of a failed run, to a failure for all. |
| `RunStatus.RebalanceIsRoster` | internal/coordinator/coordinator.go:471-511 | The roster a rebalance writes is the one the reporting side starts afresh with, everyone running, with the quotas just split. |
| `RunStatus.FirstIsRoster` | internal/coordinator/coordinator.go:312-343 | The roster of the first dispatch is the one that marks as failed exactly the agents that could not be reached. |
| `PhaseFold.SilentWorkerIsOverlooked` | internal/agent/agent.go:946-977 | No failure is needed for that: one worker has completed, another one was told to start and has not said a word. |
| `StatusMachine.RunTrue` | internal/agent/agent.go:919-942 | Every report on its way and everything the coordinator shows was once the fold of its agent's books, a declared failure, or a roster's mark. |
| `StatusMachine.BookIs` | internal/agent/agent.go:919-926 | Over every run, an agent's book has of each worker the phase last heard since the run began or the worker left, and whether it has been told to start since. |
| `StatusMachine.FinishedEarlyIff` | internal/agent/agent.go:914-918 | What is shown of an agent counts as finished while a worker told to start was still going in exactly the two ways of the fold. |
| `StatusMachine.ResetWaits` | internal/coordinator/run.go:227-236 | A rebalance makes an agent that has reported its end count as running again, and the run stays unfinished until that agent reports once more. |
| `Template.ParseTemplate` | internal/scenario/template.go:33-62 | The scan computes the specification and terminates because what remains shrinks; a template is static exactly if it has no names. |
| `Template.ParsedWellFormed` | internal/scenario/template.go:33-62 | Whatever is parsed has one more literal than names, no literal that opens a placeholder, and names that are trimmed, not empty and without a closing brace. |
| `Template.RoundTrip` | internal/scenario/template.go:95-109 | Printing what was parsed and parsing it again gives the same literals and names. |
| `Template.RoundTripIff` | internal/scenario/template.go:33-109 | A list of literals and names survives printing and parsing exactly when it is well formed. |
| `Template.PrintsOriginalIff` | internal/scenario/template.go:94-109 | What is printed is the original text exactly when no placeholder padded its name; otherwise it is shorter. |
| `Template.Render` | internal/scenario/template.go:76-89 | Rendering interleaves literals and values, for static templates as for others. |
| `Template.String` | internal/scenario/template.go:95-109 | Printing is rendering each name as its placeholder. |

## Left out

- Apportion.Largest: unbounded integers stand for machine words, so the product of total and weight never wraps.
- Executor.ProfileTargetAt: interpolation and rounding are exact; floating-point error and out-of-range conversions are not modelled.
- Aggregates.MergeIsFold: sums and extremes are exact numbers; infinities and not-a-number are not observed.
- Aggregates.FoldOfBag: gauges are excluded, because readings from several shards are added at a flush.
- Histogram.ScaleValueMonotoneIff: a conversion out of range is up to the platform in Go and taken here as amd64 has it; infinities and not-a-number are not observed; the bucket layout behind scaled values belongs to the HDR library and is an arbitrary function here; percentiles are read off equal counts and so are equal.
- Recorder.Recorder.FlushShard: that a shard and the merged index share no objects is asked of the caller, as the constructor leaves them.
- Fleet.MergeIsExact: every series is recorded under one kind and every batch is delivered at most once, as the transport has it; a duplicate would count twice.
- Store.Store.Ingest: failure summaries are not kept; open buckets are values in a map that the methods reassign, so aliasing of a bucket is not captured.
- Ring.StreamCompleteIffClean: buckets that start at or before the zero time, for which the watermark means "nothing published", are excluded.
- Window.OrderlyIff: times are unbounded, so the overflow of nanoseconds outside the years 1678 to 2262 is not modelled.
- Lifecycle.RunKept: runs are assumed to have ids of their own; the ids are random.
- Coordinator.Coordinator.Rebalance: agents come in a given order instead of being sorted by id; the start time and the plan are passed on unchanged and left out.
- Coordinator.Coordinator.DispatchFirst: which agents cannot be reached is a parameter.
- DispatchRun.IterationsLimitedIff: the first dispatch, which reads nothing, is taken to read the empty roster at the start of the run; how many iterations an agent performs is not modelled.
- Coordinator.Coordinator.CheckCompletion: the reason of a completion with failures does not spell out their number.
- RunStatus.CompletionMeans: quotas of a roster are given to it from outside, because the reporting side has no use for them.
- DispatchMachine.StoriesHoldIff: an order that cannot be sent counts as sent, as the code then writes the roster all the same.
- Agent.Agent.Rebalance: workers come in the order listed instead of sorted by id; the start time and the shard of the agent are passed on unchanged and left out.
- Template.ParseTemplate: text is a sequence of Unicode characters, so malformed UTF-8 is not modelled.
- The control streams, sockets, processes, signals and timers: effects; only the state handlers change and the messages they emit are kept.
- Event-log trimming, threshold comparison, failure sampling and configuration defaults: each is settled by reading one branch.
- HTTP measurement, the HTTP and WebSocket interfaces, the command line, reports and the dashboard: input, output and presentation.
- YAML parsing and emission: they rest on a library that is not part of this model.
- Whether a run eventually completes: that agents go on reporting, and that the ticker goes on ticking, is not modelled.
