# Constella: verified model of its core algorithms

Constella turns a stream of GPU samples and process sessions into histories, rollups, ownership
statistics and charts. This project models the algorithms in the middle of that stream in Dafny and
proves what they promise. Every file is one module; `dafny verify dfyconfig.toml` checks all of them.

| files | component |
|---|---|
| Wrappers, Telemetry, Sorting | optional values, the accepted metric ranges, a stable sort |
| Intervals, Sweep, UsageTotals | interval union, the sweep that counts busy cards, GPU-hour totals per window, day, hour and model |
| Ownership, UserStatistics | cutting usage rows at account bindings, who owns which instant, per-owner totals |
| Rollup, RollupBuckets, RollupInput, RollupTables | 20 s buckets, which samples a snapshot contributes, the 2 m and 1 h rows computed from them, windows and NULLs |
| RollupPipeline, RollupMeaning, RollupHistory, RollupRestart, RollupRuns, RollupLate, RollupSink | the database sink: its invariant, what rows mean, which prunes and rollups spoil them, what a restart forgets, whole runs with failing calls, runs with late samples, and the class itself |
| SampleRing, Downsample, SeriesSummary | the sample ring and its window query, min/max downsampling, the summary figures |
| LiveConnection, RpcBroker, ClusterState, MetricsDelta | the browser's live connection, agent requests, node state and histories, supported-metrics deltas |
| GpmSampler | the two driver buffers of the GPM sampler |
| ActivityCache, Paging, RateLimiter, JobLookup | the single-flight LRU service, cursor paging, the sliding-window limiter, job keys and their lookup |
| Raster | the line rasteriser, the Braille canvas and resampling |

Conventions. Times are integers: ticks of 2^-22 s in the usage, rollup, ring, cache, limiter and job
modules, milliseconds in the browser's connection, microseconds in the GPM sampler. Other floating-point
numbers are exact reals. Asia/Shanghai is UTC+8. Dictionaries are maps, a query with GROUP BY is a function of the
table, an upsert a map update; rows whose order SQL leaves open come in one fixed order. The clock, the
database's success or failure, the driver's answers and the network's events are parameters or
nondeterministic choices, so each result holds for all of them. Asynchronous code is split at its await points into methods,
each an uninterrupted step, and a class invariant kept by every method holds in every interleaving.

Where the code does less than its description, the model keeps the code and the project proves exactly when it does what is promised:

- **A rollup run after a prune spoils rows.** Every rollup re-reads the rows that are left and overwrites
  its targets. In every reachable state a 2 m row is exact if and only if no 2 m rollup ever ran with a prune cutoff between
  two of its 20 s buckets (`RollupHistory.MidRowExactIff`), and a 1 h row if and only if no 1 h rollup ever found one of the
  hour's 2 m rows left while another was pruned or spoilt (`RollupHistory.HourRowExactIff`). The same for one rollup
  (`RollupMeaning.RerunExactIff`, `RollupHistory.HourRerunExactIff`), for one prune and the rollups after it, in both tables
  (`RollupHistory.PruneSpoilsIff`, `RollupHistory.PruneSpoilsHourIff`), and by example
  (`RollupRuns.SpoiltRowExample`, `RollupRuns.SpoiltHourExample`).
- **A late sample replaces its bucket's row**, exactly when the bucket had been flushed (`RollupMeaning.LateRowExactIff`,
  `RollupRuns.LateRowExample`). The damage stays within the sample's own hour and series: after any run the rows outside
  the hours of late samples mean what they would have without those (`RollupLate.LateStaysInItsHour`).
- **A restart loses the buckets not yet ready**, those begun less than forty seconds before it, and no others if its last flush
  succeeds (`RollupRuns.RestartLosesIff`, `RollupRuns.RestartKeepsFlushed`).
- **A GPU column's maximum starts at zero**, which shows for temperatures below zero (`RollupBuckets.MaximumExact`).
- **The narrowed job lookup misses rows** whose user is empty or contains a colon (`JobLookup.LookupExactIff`, `JobLookup.CollisionExample`).
- **The legacy owner of a tie changes** when back-dating the first binding (`Ownership.LegacyAfterFirst`, `Ownership.LegacyTieExample`).
- **Downsampling needs a budget of five points** to stay within it, and returns short series unsorted if the clock went back
  (`Downsample.FiveIsNeeded`, `Downsample.DownsampleMinMax`).
- **Model hours exceed the total** exactly when a card is busy under two models (`UsageTotals.ModelsSumToTotal`).
- **The delta encoding drifts** when its flag is turned off and on again within a connection (`MetricsDelta.FlagOffBreaks`).
  Whatever the flag does, a sample's lists arrive if and only if the manager still shows every list left out
  (`MetricsDelta.RoundTripIff`), and all lists of a run arrive if and only if no sample goes back to a list last sent under the
  delta while the list last sent is another (`MetricsDelta.AllArriveIff`).
- **A check tick may leave neither socket nor timer**, exactly on a throttled wake-up that finds neither, which needs a clock
  running backwards (`LiveConnection.Connection.OnCheck`, `LiveConnection.ThrottledWakeUp`).
- **A sample without a connection opens the fence** of its node (`ClusterState.AnonymousSampleUnfences`).
- **Resampling may lose the first point** beside a gap (`Raster.ResampledEnds`).

## Model

| member | source | states |
|---|---|---|
| Sorting.SortSorted | packages/lab/src/constella_lab/activity_usage.py:37-37 | the stable sort returns an ordered list |
| Sorting.SortMembers | packages/lab/src/constella_lab/activity_usage.py:37-37 | the sort keeps length and members |
| Sorting.Ascending | packages/lab/src/constella_lab/activity_usage.py:68-79 | a sorted set: strictly increasing, exactly the members |
| Intervals.Union | packages/lab/src/constella_lab/activity_usage.py:117-126 | the result is a list of separated non-empty spans covering exactly the instants the input covers |
| Intervals.SeparatedUnique | packages/lab/src/constella_lab/activity_usage.py:117-126 | only one separated list covers a given set of instants, so the union is the canonical one |
| Sweep.GroupByCard | packages/lab/src/constella_lab/activity_usage.py:130-132 | clipped spans are collected per card, none lost or moved to another card |
| Sweep.AddCard | packages/lab/src/constella_lab/activity_usage.py:134-137 | adding one card's events raises the level by one exactly at the instants that card covers |
| Sweep.CollectEvents | packages/lab/src/constella_lab/activity_usage.py:133-137 | the running sum of the events is the number of cards covering each instant |
| Sweep.SweepEvents | packages/lab/src/constella_lab/activity_usage.py:138-148 | the sweep loop turns running sums into a canonical segment list showing the same counts |
| Sweep.Segments | packages/lab/src/constella_lab/activity_usage.py:129-148 | pointwise exact and canonical: an instant of the window lies in a segment of count k exactly when k > 0 distinct cards are busy then; touching segments differ in count |
| Sweep.CanonicalUnique | packages/lab/src/constella_lab/activity_usage.py:141-145 | a canonical list is determined by the counts it shows |
| Sweep.SegmentsInside | packages/lab/src/constella_lab/activity_usage.py:129-148 | segments lie inside the window and have positive length and count |
| UsageTotals.TotalsAdditive | packages/lab/src/constella_lab/activity_usage.py:151-155 | GPU time and active time over [a,b] and [b,c] sum to those over [a,c] |
| UsageTotals.OverlapIsTotal | packages/lab/src/constella_lab/activity.py:238-246 | measuring the part of a segment list inside a window gives the window's totals |
| UsageTotals.TotalIsOverlap | packages/lab/src/constella_lab/activity_usage.py:153-155 | summing whole segments equals measuring their overlap with the window |
| UsageTotals.Summary | packages/lab/src/constella_lab/activity_usage.py:151-163 | the three figures are the integrals of busy cards and of activity, and the number of observed calendar days |
| UsageTotals.ObservedDays | packages/lab/src/constella_lab/activity_usage.py:166-176 | one instant, inside the clipped record, on each calendar day the record is observed on and on no other |
| UsageTotals.DaysMet | packages/lab/src/constella_lab/activity_usage.py:170-176 | an interval meets exactly the days from its first instant's to its last instant's |
| UsageTotals.GroupByModel | packages/lab/src/constella_lab/activity_usage.py:207-209 | grouping by model keeps each model's records in order |
| UsageTotals.ModelStatistics | packages/lab/src/constella_lab/activity_usage.py:206-213 | each model's hours are the GPU time of its own records |
| UsageTotals.ModelsSumToTotal | packages/lab/src/constella_lab/activity_usage.py:206-214 | model hours sum to at least the total, and to exactly it if and only if no card is busy under two models at once |
| UsageTotals.PeriodDays | packages/lab/src/constella_lab/activity.py:52-63 | the window starts at local midnight and its days tile it up to now |
| UsageTotals.DaysSumToPeriod | packages/lab/src/constella_lab/activity.py:268-277 | daily totals sum to the period's total |
| UsageTotals.HoursSumToPeriod | packages/lab/src/constella_lab/activity.py:234-246 | the 24 hour-of-day bins sum to the period's GPU time |
| UsageTotals.AddDay | packages/lab/src/constella_lab/activity.py:238-246 | one day adds to each hour's bin the GPU time and the eligible time of that hour, cut at the day's end |
| UsageTotals.ExposedIsCovered | packages/lab/src/constella_lab/activity.py:246-246 | the eligible time of a window counts each of its instants that an eligible span holds, once |
| UsageTotals.HourProfile | packages/lab/src/constella_lab/activity.py:234-246 | the bins hold usage and exposure summed over all days |
| UsageTotals.BusiestHours | packages/lab/src/constella_lab/activity.py:247-251 | an hour's load is its usage per exposed time and none without exposure; the first three-hour window of greatest load is returned, and none exactly when no hour has both usage and exposure |
| UsageTotals.ThreeHoursWrap | packages/lab/src/constella_lab/activity.py:250-250 | the windows that begin at 22 and 23 wrap past midnight |
| Ownership.LatestIndex | packages/lab/src/constella_lab/activity_usage.py:89-95 | the chosen binding started last among the valid ones, the first listed on a tie |
| Ownership.OwnerAtIsOwner | packages/lab/src/constella_lab/activity_usage.py:89-96 | the code's choice among matched bindings is the valid one that started last, the first listed on a tie |
| Ownership.OwnerUnique | packages/lab/src/constella_lab/activity_usage.py:89-96 | the reference owner among given bindings is unique |
| Ownership.OwnedThroughout | packages/lab/src/constella_lab/activity_usage.py:68-96 | between neighbouring edges the owner at the left edge owns every instant |
| Ownership.ResolveRow | packages/lab/src/constella_lab/activity_usage.py:59-114 | the pieces of a row abut, tile its clipped interval and are each owned throughout by the reference owner; a row outside the window has none |
| Ownership.SplitConserves | packages/lab/src/constella_lab/activity_usage.py:59-114 | splitting neither loses nor invents time: lengths sum to the clipped length and each instant lies in one piece |
| Ownership.GroupBindings | packages/lab/src/constella_lab/activity_usage.py:32-35 | bindings are grouped by node and account, unnamed ones left out of the name index |
| Ownership.LegacyBindings | packages/lab/src/constella_lab/activity_usage.py:29-43 | each account's history in order of start, with only the first binding reaching back |
| Ownership.OwnerAtOwns | packages/lab/src/constella_lab/activity_usage.py:29-96 | the owner found through the grouped and back-dated bindings is, over the bindings themselves, the user of the binding of the row's node and uid, or name when it has no uid, that is valid then and started last; with only the earliest such binding back-dated for a name; the raw account if none is valid |
| Ownership.OwnsUnique | packages/lab/src/constella_lab/activity_usage.py:89-96 | that owner is unique |
| Ownership.ResolveUsage | packages/lab/src/constella_lab/activity_usage.py:46-114 | every row's pieces, in row order, tile its clipped interval, and throughout each piece its owner is that owner over the bindings themselves |
| Ownership.LegacyBeforeFirst | packages/lab/src/constella_lab/activity_usage.py:36-42 | before any binding began, the first owner alone inherits, until its binding ends |
| Ownership.LegacyAfterFirst | packages/lab/src/constella_lab/activity_usage.py:36-42 | afterwards the legacy history names the bindings' owner, except exactly where the window began before the first binding and the next valid binding has the same start, another user and none valid started later |
| Ownership.LegacyTieExample | packages/lab/src/constella_lab/activity_usage.py:36-42 | two bindings of one start: back-dating changes the owner |
| UserStatistics.RowContribution | packages/lab/src/constella_lab/activity_usage.py:183-184 | a row's pieces give an owner its card at an instant exactly when the owner owns the row then |
| UserStatistics.OwnedIsBusy | packages/lab/src/constella_lab/activity_usage.py:179-187 | an owner's busy cards at an instant are the distinct cards it owns then |
| UserStatistics.OwnedTimeIsGpuTime | packages/lab/src/constella_lab/activity_usage.py:186-193 | an owner's GPU time is the integral of its owned cards |
| UserStatistics.UserTotals | packages/lab/src/constella_lab/activity_usage.py:179-193 | every owner's total is that integral, for the owner over the bindings themselves, and no owner with time is missing |
| Rollup.TargetNested | packages/backend/src/constella/db.py:476-476 | bucketing at 2 m and then at 1 h leads to the same window as bucketing at 1 h, also below zero |
| Rollup.GatherSplits | packages/backend/src/constella/db.py:457-473 | count, sum and maximum over disjoint sets of buckets combine |
| Rollup.AggregateIsDirect | packages/backend/src/constella/db.py:455-496 | weighted averages, maxima, counts and NULLs computed from rows equal those computed from the samples behind the rows |
| Rollup.WholeRow | packages/backend/src/constella/db.py:457-492 | a row over part of a window equals the window's row exactly when no sampled bucket is missing |
| Rollup.MissingSamplesShow | packages/backend/src/constella/db.py:473-473 | the sample count tells whether a sampled bucket is missing |
| RollupBuckets.RollupBucket.AddGpu | packages/backend/src/constella/db.py:63-72 | the bucket becomes the tally of its samples with one more |
| RollupBuckets.RollupBucket.ToRow | packages/backend/src/constella/db.py:74-90 | the row holds the tally's averages, maxima and count; without samples, zeros |
| RollupBuckets.MaximumExact | packages/backend/src/constella/db.py:49-72 | the stored maximum is the largest reading exactly when some reading is not negative |
| RollupBuckets.MaximumAsIs | packages/backend/src/constella/performance_rollup.py:40-62 | a GPM column's maximum is its largest reading |
| RollupBuckets.PeakOfValues | packages/backend/src/constella/db.py:63-72 | the running maximum bounds all readings from above and is attained when positive |
| RollupBuckets.NvidiaGpmRollupBucket.AddMetrics | packages/backend/src/constella/performance_rollup.py:40-47 | the loop adds exactly the accepted readings, each to its own column |
| RollupBuckets.NvidiaGpmRollupBucket.Add | packages/backend/src/constella/performance_rollup.py:34-47 | a GPM sample that is warming, available or failed counts as expected, and no other does; columns change only for an available one |
| RollupBuckets.NvidiaGpmRollupBucket.ToRow | packages/backend/src/constella/performance_rollup.py:49-62 | averages and maxima per column over its own count, NULL without readings |
| RollupInput.AcceptedMeans | packages/backend/src/constella/performance_rollup.py:40-46 | the readings taken from a metrics dictionary are exactly the numbers in range under a known name |
| RollupInput.GpuLogMeans | packages/backend/src/constella/db.py:1092-1105 | over any snapshots and buckets, the log of a GPU holds one sample for each valid sample, and its columns sum the fields |
| RollupInput.GpmLogMeans | packages/backend/src/constella/db.py:1106-1120 | the log of its performance holds one sample for each GPM performance that is warming, available or failed, and each column the accepted readings of the available ones |
| RollupInput.GpuRowMeans | packages/backend/src/constella/db.py:74-90 | a GPU row counts the valid samples of its buckets and averages their fields |
| RollupInput.GpmRowMeans | packages/backend/src/constella/performance_rollup.py:49-62 | a performance row's expected count is the number of those performances, its counts and averages those of accepted readings |
| RollupInput.RowMaxima | packages/backend/src/constella/db.py:49-72 | a row's maxima are the largest readings, counted from zero in GPU columns |
| RollupTables.GroupStarts | packages/backend/src/constella/db.py:476-491 | a group holds exactly the source rows of the series whose window is the target |
| RollupTables.GroupIsDirect | packages/backend/src/constella/db.py:455-496 | a group's aggregate is the direct aggregate of everything its rows stand for |
| RollupTables.RolledKeys | packages/backend/src/constella/db.py:491-492 | exactly the due windows that still have a source row get a row |
| RollupTables.RolledFaithful | packages/backend/src/constella/db.py:441-504 | rows written by a rollup are faithful to the raw samples whenever their sources are |
| RollupTables.UpsertFaithful | packages/backend/src/constella/db.py:346-366 | an upsert of faithful rows keeps a table faithful |
| RollupTables.AppendFaithful | packages/backend/src/constella/db.py:1090-1105 | a sample on time leaves every stored row faithful |
| RollupTables.RerunKeepsRows | packages/backend/src/constella/db.py:441-504 | a later rollup of unchanged sources changes no row |
| RollupPipeline.AccumulateKeeps | packages/backend/src/constella/db.py:1090-1105 | accumulating a sample that is on time keeps the pipeline's invariant |
| RollupPipeline.FlushedAgainTheSame | packages/backend/src/constella/db.py:948-970 | a bucket flushed twice is flushed with the same contents |
| RollupPipeline.WrittenKeeps | packages/backend/src/constella/db.py:959-964 | writing ready buckets keeps the invariant |
| RollupPipeline.ClearedKeeps | packages/backend/src/constella/db.py:965-970 | dropping buckets written to both tables loses nothing and leaves none ready |
| RollupPipeline.WindowFlushed | packages/backend/src/constella/db.py:448-453 | when a 2 m window is due, every sampled bucket of it has been flushed or pruned |
| RollupPipeline.MidRolledKeeps | packages/backend/src/constella/db.py:1126-1138 | a 2 m rollup less than ten seconds after a flush keeps the invariant and covers every due window |
| RollupPipeline.HourCovered | packages/backend/src/constella/db.py:1139-1151 | a due hour's row covers every bucket its 2 m rows cover; a missing 2 m row was pruned |
| RollupPipeline.HourRolledKeeps | packages/backend/src/constella/db.py:1139-1151 | a 1 h rollup less than two minutes after a 2 m rollup keeps the invariant and covers every due hour |
| RollupPipeline.PrunedKeeps | packages/backend/src/constella/db.py:569-599 | pruning soon after both rollups removes only what the cutoffs name and keeps the invariant |
| RollupMeaning.WindowIsInterval | packages/backend/src/constella/db.py:1091-1091 | from the epoch on, a sample's window is the interval of time that holds it |
| RollupMeaning.FineRowExact | packages/backend/src/constella/db.py:948-970 | every sampled bucket not open and not pruned has a 20 s row, the direct aggregate of all its samples |
| RollupMeaning.MidRowExact | packages/backend/src/constella/db.py:441-504 | enough for an exact 2 m row, by the clock alone: no sampled bucket of the window is past the 20 s retention |
| RollupMeaning.HourRowExact | packages/backend/src/constella/db.py:441-504 | enough for an exact 1 h row, rolled up in two stages, by the clock alone: no sampled bucket or window of the hour is past its retention |
| RollupMeaning.MidRowExists | packages/backend/src/constella/db.py:1126-1138 | a window due at the last 2 m rollup has its row, until the row itself is pruned |
| RollupMeaning.HourRowExists | packages/backend/src/constella/db.py:1139-1151 | an hour due at the last 1 h rollup has its row, until the row itself is pruned |
| RollupMeaning.RerunExactIff | packages/backend/src/constella/db.py:455-504 | a row a rollup writes is exact if and only if none of the window's 20 s rows is gone |
| RollupMeaning.StraddledWindowLosesSamples | packages/backend/src/constella/db.py:569-599 | if the prune cutoff falls between two 20 s rows of a window, the next rollup writes a wrong 2 m row, whether or not there was one before |
| RollupMeaning.LateSampleExactIff | packages/backend/src/constella/db.py:1093-1103 | after any sample its open bucket holds all the bucket's samples if and only if the bucket was open or new |
| RollupMeaning.LateRowExactIff | packages/backend/src/constella/db.py:948-961 | and the 20 s row the next flush writes is the direct aggregate of all the bucket's samples under the same condition |
| RollupHistory.MidRowExactIff | packages/backend/src/constella/db.py:441-504 | in every reachable state a 2 m row is the direct aggregate of its window's samples if and only if no 2 m rollup of its table ran with a prune cutoff between two of its sampled buckets |
| RollupHistory.HourRowExactIff | packages/backend/src/constella/db.py:441-504 | in every reachable state a 1 h row is the direct aggregate of its hour's samples if and only if no 1 h rollup of its table found a 2 m row of the hour left while another was pruned or spoilt |
| RollupHistory.AccumulateHolds | packages/backend/src/constella/db.py:1090-1105 | a sample on time keeps the invariant and changes the history of no row |
| RollupHistory.MidRolledHolds | packages/backend/src/constella/db.py:441-504 | a 2 m rollup keeps every row's history: rows it writes and rows it cannot write any more |
| RollupHistory.HourRolledHolds | packages/backend/src/constella/db.py:441-504 | the same for a 1 h rollup |
| RollupHistory.PrunedHolds | packages/backend/src/constella/db.py:569-599 | a prune soon after both rollups keeps the history of the rows it leaves |
| RollupHistory.HourRerunExactIff | packages/backend/src/constella/db.py:455-504 | a 1 h row a rollup writes is exact if and only if the 2 m row of every sampled bucket is left and itself exact |
| RollupHistory.PruneSpoilsIff | packages/backend/src/constella/db.py:569-599 | after a prune and a 2 m rollup, in either table, a 2 m row is exact if and only if it was and the cutoff does not fall between two of its sampled buckets |
| RollupHistory.PruneSpoilsHourIff | packages/backend/src/constella/db.py:569-599 | after a prune and both rollups, in either table, a 1 h row is exact if and only if it was and none of its 2 m rows is left while another is pruned or spoilt |
| RollupRestart.ForgottenHolds | packages/backend/src/constella/db.py:879-897 | the next process, with the old tables, empty buckets and clocks at zero, meets the invariant for the samples not lost |
| RollupRestart.LostIff | packages/backend/src/constella/db.py:951-958 | with no ready bucket in memory exactly the buckets not yet ready are lost |
| RollupRuns.FlushStepKeeps | packages/backend/src/constella/db.py:948-971 | a flush keeps the invariant whichever of its two writes fails |
| RollupRuns.MaintainedKeeps | packages/backend/src/constella/db.py:1122-1155 | a maintenance run at a later time keeps the invariant whichever database call fails, and loses no sample of the log |
| RollupRuns.RestartedHolds | packages/backend/src/constella/db.py:916-924 | a restart keeps the invariant for the samples it does not lose, whichever write of its last flush fails |
| RollupRuns.RestartLosesIff | packages/backend/src/constella/db.py:916-924 | a restart whose last flush succeeds loses a bucket if and only if it began less than forty seconds before |
| RollupRuns.RestartKeepsFlushed | packages/backend/src/constella/db.py:916-924 | a restart never loses a bucket flushed before it |
| RollupRuns.RunKeeps | packages/backend/src/constella/db.py:879-1158 | the invariant and every row's history hold after every run of samples, maintenance and restarts with samples on time and time not going back |
| RollupRuns.SpoiltRowExample | packages/backend/src/constella/db.py:1122-1155 | a reachable state with an exact 2 m row that the next prune and rollup make wrong |
| RollupRuns.SpoiltHourExample | packages/backend/src/constella/db.py:1122-1155 | an exact 1 h row that is wrong after the prune and the maintenance run an hour later |
| RollupRuns.SpoiltHourIsReachable | packages/backend/src/constella/db.py:1122-1155 | two samples and two maintenance runs from an empty sink lead there, with every call succeeding |
| RollupRuns.LateRowExample | packages/backend/src/constella/db.py:948-970 | an exact 20 s row that a late sample and the next flush make wrong |
| RollupLate.AccumulatedOutside | packages/backend/src/constella/db.py:1090-1105 | accumulating commutes with leaving out the samples, buckets and rows of some hours, and a sample of those hours is not seen |
| RollupLate.RolledRest | packages/backend/src/constella/db.py:455-492 | so does a rollup query: a row depends on the rows of its own hour and series alone |
| RollupLate.MaintainedOutside | packages/backend/src/constella/db.py:1122-1155 | so does a whole maintenance run, whatever fails |
| RollupLate.RestartedOutside | packages/backend/src/constella/db.py:916-924 | so does a restart |
| RollupLate.RunKeepsOutside | packages/backend/src/constella/db.py:879-1158 | over any run the rest of the state, without given hours that include those of all late samples, keeps the invariant and the history |
| RollupLate.LateStaysInItsHour | packages/backend/src/constella/db.py:879-1158 | after any run from an empty sink, however late its samples, every row outside the hours of late samples is there when due, and exact under the same condition as in a run without late samples |
| RollupSink.AccumulatedAllKeeps | packages/backend/src/constella/db.py:1090-1120 | a snapshot's samples, all on time, keep the invariant and extend the log by exactly themselves |
| RollupSink.Upsert | packages/backend/src/constella/db.py:339-383 | the upsert loop overwrites the given rows and keeps the others |
| RollupSink.RollupSink.constructor | packages/backend/src/constella/db.py:879-899 | an empty sink satisfies the invariant |
| RollupSink.RollupSink.OnTables | packages/backend/src/constella/db.py:879-897 | a sink on the tables of an earlier process satisfies the invariant for what that process had not lost |
| RollupSink.RollupSink.Restart | packages/backend/src/constella/db.py:916-924 | the last flush and the next process's sink are the specified restart step, and keep the invariant at a later time |
| RollupSink.RollupSink.AccumulateSnapshot | packages/backend/src/constella/db.py:1090-1120 | the log grows by exactly what the snapshot contributes and the buckets hold it; on time, the invariant is kept |
| RollupSink.RollupSink.Flush | packages/backend/src/constella/db.py:948-971 | a flush writes ready buckets of both tables and then drops them, stopping at the first failing write |
| RollupSink.RollupSink.RollUpMid | packages/backend/src/constella/db.py:441-504 | the 2 m table after one rollup query |
| RollupSink.RollupSink.RollUpHour | packages/backend/src/constella/db.py:506-567 | the 1 h table after one rollup query |
| RollupSink.RollupSink.Prune | packages/backend/src/constella/db.py:569-599 | all three tables keep exactly the rows not older than their retention |
| RollupSink.RollupSink.FlushIfDue | packages/backend/src/constella/db.py:1123-1125 | a flush happens when due, and its clock moves only if nothing failed |
| RollupSink.RollupSink.MidIfDue | packages/backend/src/constella/db.py:1126-1138 | both tables are rolled up to 2 m when due, the second only if enabled and the first succeeded |
| RollupSink.RollupSink.HourIfDue | packages/backend/src/constella/db.py:1139-1151 | the same to 1 h |
| RollupSink.RollupSink.PruneIfDue | packages/backend/src/constella/db.py:1152-1155 | pruning happens when due and moves its clock only if nothing failed |
| RollupSink.RollupSink.RunScheduledMaintenance | packages/backend/src/constella/db.py:1122-1158 | one maintenance run is the specified sequence of due steps, and keeps the invariant at a later time |
| SampleRing.Mark | packages/backend/src/constella/performance_highres.py:39-45 | the mask marks exactly the accepted metrics of an available sample, whose values are stored |
| SampleRing.Ring.Append | packages/backend/src/constella/performance_highres.py:32-48 | the log grows by the sample, with exactly the readings in range stored; the ring holds its last capacity entries |
| SampleRing.Ring.Store | packages/backend/src/constella/performance_highres.py:35-48 | storing drops the oldest entry exactly when the ring is full |
| SampleRing.LogAppend | packages/backend/src/constella/performance_highres.py:32-48 | the order flag, updated from the newest entry alone, stays equivalent to an ordered log |
| SampleRing.UnrollStore | packages/backend/src/constella/performance_highres.py:35-48 | writing at the write index appends to the unrolled contents |
| SampleRing.UnrollSlice | packages/backend/src/constella/performance_highres.py:112-117 | a wrapped slice of the slots is a slice of the unrolled contents |
| SampleRing.Index | packages/backend/src/constella/performance_highres.py:122-125 | the slot of an offset, with and without wrap |
| SampleRing.Bisect | packages/backend/src/constella/performance_highres.py:107-110 | the left and right insertion points among the ordered timestamps |
| SampleRing.ScanIsSlice | packages/backend/src/constella/performance_highres.py:99-117 | on ordered contents the scan selects exactly a slice |
| SampleRing.ScannedWindow | packages/backend/src/constella/performance_highres.py:99-105 | the fallback scan over all parallel arrays |
| SampleRing.OrderedWindow | packages/backend/src/constella/performance_highres.py:106-117 | bisect and wrapped slices return for all parallel arrays what the scan would |
| SampleRing.Ring.Window | packages/backend/src/constella/performance_highres.py:98-117 | either path returns the scan of the last capacity samples |
| SampleRing.BuildTimeline | packages/backend/src/constella/performance_highres.py:71-96 | one metric's timeline: its value where marked, a gap elsewhere |
| SampleRing.Ring.MetricPoints | packages/backend/src/constella/performance_highres.py:71-96 | a query's points are, in order and without repetition, exactly the chosen points of the window's timeline: first and last, each bucket's first least and first greatest reading, its first gap if it also has a reading, its last point if it has none; its values are the readings |
| Downsample.BucketPoints | packages/backend/src/constella/performance_highres.py:261-272 | exactly the first least and first greatest reading, the first gap if there is also a reading, and the last point if there is none |
| Downsample.DownsampleMinMax | packages/backend/src/constella/performance_highres.py:251-274 | short series verbatim; else exactly first, last and the chosen points of every bucket, in order and without repetition, within the budget from five on |
| Downsample.BucketSizeLeast | packages/backend/src/constella/performance_highres.py:256-260 | the bucket size is the least that needs no more buckets than the budget allows |
| Downsample.RemainsKept | packages/backend/src/constella/performance_highres.py:261-272 | among the chosen points are each bucket's extremes and a marker of its gaps |
| Downsample.GlobalExtremes | packages/backend/src/constella/performance_highres.py:261-272 | every reading lies between two kept ones, and a gap anywhere leaves a gap marker |
| Downsample.FiveIsNeeded | packages/backend/src/constella/performance_highres.py:258-260 | for every budget below five a five-point series exceeds it |
| SeriesSummary.PercentileRank | packages/backend/src/constella/performance_highres.py:238-239 | the 95th percentile has at least 95 % of the values at or below it and fewer than 95 % below it |
| SeriesSummary.SumAdds | packages/backend/src/constella/performance_highres.py:241-241 | what the average divides: sums add up, and one value is its own sum |
| SeriesSummary.Summarise | packages/backend/src/constella/performance_highres.py:226-248 | average, extremes, percentile and coverage are what their names say; none without values |
| LiveConnection.BackoffShape | frontend/src/live-connection.ts:34-34 | delays start at 1.2 s, double four times, never shrink and stay within 30 s, which they reach at the sixth failure |
| LiveConnection.MessageWithin | frontend/src/live-connection.ts:1-65 | in a whole run each message reaches the page after its socket was made and before it was closed, with no other socket in between |
| LiveConnection.MessagesInOrder | frontend/src/live-connection.ts:41-65 | in a whole run messages never come from an older socket than those before them |
| LiveConnection.NothingAfterClose | frontend/src/live-connection.ts:1-29 | retired sockets never publish: after a socket is closed only later ones are heard |
| LiveConnection.Connection.constructor | frontend/src/live-connection.ts:127-133 | the first connection is attempted exactly when available |
| LiveConnection.Connection.Retire | frontend/src/live-connection.ts:23-29 | no socket and no timer remain; the old socket is closed, and the trace says so |
| LiveConnection.Connection.Schedule | frontend/src/live-connection.ts:30-40 | a timer with the right delay is set exactly when available |
| LiveConnection.Connection.Connect | frontend/src/live-connection.ts:41-50 | a new socket is made exactly when available and none exists |
| LiveConnection.Connection.OnMessage | frontend/src/live-connection.ts:51-65 | only the current socket's messages are published; a throwing handler starts one probe |
| LiveConnection.Connection.OnLoss | frontend/src/live-connection.ts:66-71 | losing the current socket schedules a reconnect; others change nothing |
| LiveConnection.Connection.OnTimer | frontend/src/live-connection.ts:35-39 | the timer becomes a socket, if available, and a probe |
| LiveConnection.Connection.Probe | frontend/src/live-connection.ts:73-91 | automatic probes share a running one, a manual one replaces it |
| LiveConnection.Connection.OnProbeStart | frontend/src/live-connection.ts:76-79 | only the current probe asks the page, and never after dispose |
| LiveConnection.Connection.OnProbeResult | frontend/src/live-connection.ts:79-88 | only the current probe's refusal blocks, and then no socket is left |
| LiveConnection.Connection.Resume | frontend/src/live-connection.ts:92-105 | a resume acts unless unavailable or throttled; only a manual one keeps a socket |
| LiveConnection.Connection.OnVisibility | frontend/src/live-connection.ts:107-110 | hiding retires and changes nothing else, showing resumes |
| LiveConnection.Connection.OnOnline | frontend/src/live-connection.ts:129-129 | coming online resumes while listening |
| LiveConnection.Connection.OnOffline | frontend/src/live-connection.ts:111-114 | going offline retires |
| LiveConnection.Connection.OnCheck | frontend/src/live-connection.ts:115-126 | a check while available ends with exactly one of socket and timer, except exactly for a throttled wake-up with neither, which a monotonic clock rules out |
| LiveConnection.ThrottledWakeUp | frontend/src/live-connection.ts:92-126 | a run that ends with neither: resume, hide, a check with the clock set back, show, a late check |
| LiveConnection.Connection.RecoverNow | frontend/src/live-connection.ts:135-135 | a manual refresh unblocks and resumes |
| LiveConnection.Connection.Dispose | frontend/src/live-connection.ts:136-145 | everything is closed, and no later step calls the page |
| RpcBroker.AgentRpcBroker.Register | packages/backend/src/constella/agent_rpc.py:39-54 | replacing a connection fails all its unfinished calls; registering it again fails none |
| RpcBroker.AgentRpcBroker.Unregister | packages/backend/src/constella/agent_rpc.py:56-61 | removing the present connection fails its calls; an older one changes nothing |
| RpcBroker.AgentRpcBroker.Request | packages/backend/src/constella/agent_rpc.py:92-119 | a request is queued on the node's present connection or refused with no trace |
| RpcBroker.AgentRpcBroker.Resolve | packages/backend/src/constella/agent_rpc.py:141-156 | a reply completes a call exactly when it came over the call's connection with its node, id and type, and the call was unfinished |
| RpcBroker.AgentRpcBroker.TimeOut | packages/backend/src/constella/agent_rpc.py:119-124 | a timeout completes only an unfinished call |
| RpcBroker.AgentRpcBroker.Cancel | packages/backend/src/constella/agent_rpc.py:119-124 | cancelling a waiting caller completes only an unfinished call |
| RpcBroker.AgentRpcBroker.Wake | packages/backend/src/constella/agent_rpc.py:119-124 | a call returns its one outcome, or its caller's late cancellation, and leaves no pending entry |
| RpcBroker.AgentRpcBroker.FailPending | packages/backend/src/constella/agent_rpc.py:158-161 | exactly the node's unfinished calls fail |
| RpcBroker.AnswerMatches | packages/backend/src/constella/agent_rpc.py:141-156 | in every state an answered call was answered over its own connection with its own key |
| ClusterState.RestartExists | packages/backend/src/constella/cluster.py:66-67 | every GPU has a point from which its history counts |
| ClusterState.NotedKeeps | packages/backend/src/constella/cluster.py:61-73 | one reading keeps all histories what they should be |
| ClusterState.LastOfMeans | packages/backend/src/constella/cluster.py:85-90 | a bounded series holds the end of what was appended, as much as there is room for |
| ClusterState.HistoryAccumulator.Update | packages/backend/src/constella/cluster.py:61-83 | each GPU's four series are its last readings, up to the size, since its last invalid one; absent GPUs keep theirs |
| ClusterState.Fenced | packages/backend/src/constella/cluster.py:301-304 | an older connection changes nothing: no node, no history, not the global sequence |
| ClusterState.SessionIsolated | packages/backend/src/constella/cluster.py:126-271 | from its greeting on, a node's entry is what its own connection's calls alone would make it |
| ClusterState.SequenceTellsChanges | packages/backend/src/constella/cluster.py:306-308 | the global sequence grows exactly on the calls that are not ignored, by one, or by two for a heartbeat that greets |
| ClusterState.AcceptedIncrease | packages/backend/src/constella/cluster.py:190-194 | between greetings accepted sample numbers strictly increase |
| ClusterState.GreetingRestarts | packages/backend/src/constella/cluster.py:162-167 | after a greeting any positive number is accepted |
| ClusterState.AnonymousSampleUnfences | packages/backend/src/constella/cluster.py:301-304 | after a sample, which connections the node accepts; all of them if it named none |
| ClusterState.SampleAnswerIff | packages/backend/src/constella/cluster.py:185-194 | a sample is refused exactly for another connection or a number shown already, and accepted exactly if whole and not refused |
| ClusterState.GreetingShows | packages/backend/src/constella/cluster.py:133-175 | a greeting connects the node and restarts its numbering, keeps its readings, and replaces only what it tells |
| ClusterState.SampleShows | packages/backend/src/constella/cluster.py:196-219 | an accepted sample shows its own readings, error and number and keeps what greetings told |
| ClusterState.HeartbeatShows | packages/backend/src/constella/cluster.py:223-246 | a heartbeat keeps its node alive and its number from falling behind, and greets an unknown node under its own name |
| ClusterState.ConnectedIff | packages/backend/src/constella/cluster.py:126-271 | after any run a node is connected if and only if the last call that changed its entry, rejections aside, is not a disconnection, and it was last seen then |
| ClusterState.ReadingsShown | packages/backend/src/constella/cluster.py:177-255 | after any run a node shows the readings and error of the last sample accepted for it, the error replaced if one was rejected since |
| ClusterState.ClusterState.RegisterHello | packages/backend/src/constella/cluster.py:126-175 | a greeting registers the connection and restarts the numbering |
| ClusterState.ClusterState.IngestSample | packages/backend/src/constella/cluster.py:177-221 | a sample is accepted, refused or invalid; only an accepted one changes anything |
| ClusterState.ClusterState.IngestHeartbeat | packages/backend/src/constella/cluster.py:223-246 | a heartbeat of an unknown node greets it, one of its connection keeps it alive and raises its number |
| ClusterState.ClusterState.RejectSample | packages/backend/src/constella/cluster.py:248-255 | a rejection shows once |
| ClusterState.ClusterState.DisconnectNode | packages/backend/src/constella/cluster.py:257-271 | only the present connection can disconnect a node |
| MetricsDelta.SupportedMetricsDelta.Apply | packages/backend/src/constella/agent.py:137-161 | lists are sent whole or left out when unchanged, and what is remembered is this sample's |
| MetricsDelta.StripMeans | packages/backend/src/constella/cluster.py:530-531 | stripping leaves the middle between two blank ends, without a blank at either end |
| MetricsDelta.NormaliseMeans | packages/backend/src/constella/cluster.py:540-550 | a normalised list has exactly the stripped non-empty names, each once, in order of first occurrence |
| MetricsDelta.SampleRoundTrip | packages/backend/src/constella/cluster.py:481-491 | one sample in step decodes to the agent's normalised lists and stays in step |
| MetricsDelta.RunInStep | packages/backend/src/constella/agent.py:214-233 | over every sound run agent and manager remember the same lists |
| MetricsDelta.RunRoundTrip | packages/backend/src/constella/cluster.py:348-355 | after every sound run the manager's lists are the agent's, across GPUs coming and going, profile changes and reconnects |
| MetricsDelta.RoundTripIff | packages/backend/src/constella/cluster.py:481-491 | after any run, flags included, a sample's lists arrive if and only if the manager still shows every list left out |
| MetricsDelta.AllArriveIff | packages/backend/src/constella/agent.py:137-161 | over a run with the flag toggled at will every sample's lists arrive if and only if none goes back to a list last sent under the delta while the list last sent for the GPU is another |
| MetricsDelta.FlagOffBreaks | packages/backend/src/constella/agent.py:284-300 | the run that drifts: turning the flag off and on within a connection leaves the manager with the meanwhile list |
| GpmSampler.AllocateSamples | packages/backend/src/constella/nvml_gpm.py:215-228 | two distinct fresh buffers, or none and nothing leaked |
| GpmSampler.Capture | packages/backend/src/constella/nvml_gpm.py:128-168 | a computation compares the undisturbed older capture with the one just made, at least 100 ms apart; the status is available with exactly the values the driver computed, error if a call failed or no value came, warming otherwise |
| GpmSampler.SampleDevice | packages/backend/src/constella/nvml_gpm.py:111-181 | on every path the driver's own answers decide status, values and next state, with each call asked in its turn and back-off after three failures |
| GpmSampler.Provider.Sample | packages/backend/src/constella/nvml_gpm.py:98-181 | status and values are what the driver answered for this device; every computation ever made on any device compared the right two captures; other devices are undisturbed |
| GpmSampler.Provider.Close | packages/backend/src/constella/nvml_gpm.py:91-96 | every buffer ever allocated has been freed exactly once |
| ActivityCache.ActivityService.Get | packages/lab/src/constella_lab/activity.py:133-145 | a hit is under a minute old and becomes most recent; otherwise one load per key, sixteen at most |
| ActivityCache.ActivityService.Finish | packages/lab/src/constella_lab/activity.py:147-166 | fitting data is stored and survives its evictions; the key is free again whatever happened |
| ActivityCache.ActivityService.Evict | packages/lab/src/constella_lab/activity.py:156-160 | the loop removes the fewest oldest entries that make the rest fit |
| ActivityCache.TouchedSound | packages/lab/src/constella_lab/activity.py:141-155 | dictionary order stays order of last use |
| ActivityCache.OthersStay | packages/lab/src/constella_lab/activity.py:141-155 | only entries of the key leave their place |
| ActivityCache.LastSurvives | packages/lab/src/constella_lab/activity.py:153-160 | the entry just stored is not evicted |
| ActivityCache.VictimsAreOldest | packages/lab/src/constella_lab/activity.py:156-160 | every victim was used less recently than every survivor |
| Paging.WalkShowsAll | packages/lab/src/constella_lab/activity.py:303-321 | following cursors shows every job once and in order, whatever the limits |
| Paging.PageMeans | packages/lab/src/constella_lab/activity.py:307-321 | a page is as many items from the cursor on as there are up to the limit, with a cursor to the first left; a cursor of another list has expired, one outside this list is invalid |
| RateLimiter.SlidingWindowLimiter.Consume | packages/lab/src/constella_lab/api.py:58-66 | an amount is admitted exactly when the window ending now stays within the limit; a refusal records nothing |
| RateLimiter.AdmitKeepsBounded | packages/lab/src/constella_lab/api.py:58-66 | every window of every end then holds at most the limit |
| RateLimiter.QueueIsWindow | packages/lab/src/constella_lab/api.py:59-63 | the trimmed queue is exactly the window |
| RateLimiter.Trim | packages/lab/src/constella_lab/api.py:60-62 | trimming drops exactly the expired events |
| JobLookup.ParseOwner | packages/backend/src/constella/highres.py:316-321 | a printed owner parses to itself, a missing one to nothing |
| JobLookup.KeyNames | packages/backend/src/constella/analytics.py:153-169 | a process begun at most ten minutes after its parent goes by the parent's start and pid, any other by its own, with zero or missing replaced in the stated order |
| JobLookup.SplitKey | packages/backend/src/constella/highres.py:313-315 | what a printed key splits into, colons in node and user included |
| JobLookup.SelectedIff | packages/backend/src/constella/highres.py:498-506 | the query selects a row of the key exactly when its user is missing, or non-empty without a colon |
| JobLookup.NarrowedRows | packages/backend/src/constella/highres.py:487-531 | the narrowed rows of a key are its rows but for those |
| JobLookup.MineAre | packages/backend/src/constella/highres.py:508-510 | the rows of a key in a range are those that print the key and were last seen in the range |
| JobLookup.GroupJobs | packages/backend/src/constella/highres.py:534-597 | each key's job is the group of exactly its rows |
| JobLookup.GroupedSummarises | packages/backend/src/constella/highres.py:536-585 | a job has the earliest start, latest end and exactly the sessions, pids and GPUs of its rows |
| JobLookup.SessionsOfRows | packages/backend/src/constella/highres.py:560-577 | a session's entry is its first row, last seen when the latest of its rows was |
| JobLookup.GetJob | packages/backend/src/constella/highres.py:300-324 | the lookup of any key by its narrowed rows |
| JobLookup.LookupExactIff | packages/backend/src/constella/highres.py:300-324 | it agrees with grouping every row in the range if and only if the owner is a positive pid and no row of the key is missed, or nothing prints the key |
| JobLookup.CollisionExample | packages/backend/src/constella/analytics.py:153-169 | two users on two nodes share a key, and the lookup misses one |
| Raster.LineShape | packages/tui/src/constella_tui/charts.py:258-276 | the ideal line: max(dx,dy)+1 points from end to end, 8-neighbours, within the box and half a pixel |
| Raster.StandingStep | packages/tui/src/constella_tui/charts.py:270-276 | one turn of the loop, from a point of the ideal line with its error, reaches the next point with its error, in every octant |
| Raster.Line | packages/tui/src/constella_tui/charts.py:258-276 | the loop terminates and yields exactly the ideal line |
| Raster.Plot | packages/tui/src/constella_tui/charts.py:60-62 | a dot lights exactly its own bit |
| Raster.DotNumbered | packages/tui/src/constella_tui/charts.py:60-62 | a dot's bit is its number in the Braille block: 1 to 3 and 7 down the left column, 4 to 6 and 8 down the right |
| Raster.CellBits | packages/tui/src/constella_tui/charts.py:122-129 | a cell combines the dots of all charts |
| Raster.Overlay | packages/tui/src/constella_tui/charts.py:116-130 | the overlay is lit exactly where some chart is |
| Raster.DrawnInside | packages/tui/src/constella_tui/charts.py:53-63 | every drawn pixel lies on the canvas |
| Raster.PixelRowInside | packages/tui/src/constella_tui/charts.py:45-50 | a value's row lies on the canvas |
| Raster.PixelRowMonotone | packages/tui/src/constella_tui/charts.py:45-50 | larger values are never drawn lower |
| Raster.PixelRowShows | packages/tui/src/constella_tui/charts.py:42-50 | the maximum and above are drawn in row 0, zero and below in the last row, anything between in the nearest row, an even one at an exact half |
| Raster.ShowsAtOnce | packages/tui/src/constella_tui/charts.py:42-50 | and only one row is so |
| Raster.Resample | packages/tui/src/constella_tui/charts.py:235-255 | the loop computes the interpolated samples |
| Raster.ResampledBetween | packages/tui/src/constella_tui/charts.py:235-255 | a sample between two readings divides their difference as its position divides their distance, and is a gap if either of them is |
| Raster.ResampledBounded | packages/tui/src/constella_tui/charts.py:235-255 | interpolation stays within the values' bounds |
| Raster.ResampledEnds | packages/tui/src/constella_tui/charts.py:235-255 | the last sample is kept; the first exactly when no gap follows it |
| Raster.DrawCurve | packages/tui/src/constella_tui/charts.py:53-63 | the curve lights exactly the lines between neighbouring points and single points, broken at gaps |
| Raster.PlotSamples | packages/tui/src/constella_tui/charts.py:42-52 | each sample's point lies in its own column and in the row its value shows at, a gap where it is none |
| Raster.BrailleChart | packages/tui/src/constella_tui/charts.py:18-65 | the lit dots of the grid are exactly the pixels drawn for the shown samples, each at the row its value shows at |

## Left out

- Driver bindings and OS readers (NVML, DCMI, NPU, procfs): foreign calls; the GPM driver is a nondeterministic object.
- Routes, WebSocket plumbing, authentication, settings, process control: input and output around the modelled steps.
- SQL text, schema, migrations, SQLite concurrency and the storage of the lab's bindings: tables are maps, bindings any list.
- Floating-point and display rounding, float32 storage, file formats.
- UsageTotals.ModelStatistics: the shares and the sort for display are not modelled.
- UserStatistics.UserTotals: weights, labels, task counts and the top-20 cut are not modelled.
- RollupMeaning.MidRowExact: a sufficient condition; `RollupHistory.MidRowExactIff` is the exact one.
- RollupMeaning.HourRowExact: a sufficient condition; `RollupHistory.HourRowExactIff` is the exact one.
- RollupMeaning.StraddledWindowLosesSamples: one direction; `RollupHistory.PruneSpoilsIff` has both.
- RollupMeaning.LateSampleExactIff: speaks of the open bucket; `RollupMeaning.LateRowExactIff` speaks of the row.
- MetricsDelta.FlagOffBreaks: one shape of run; `MetricsDelta.AllArriveIff` is the exact condition over all.
- RollupRuns.RunKeeps: assumes each sample arrives before its bucket is ready to flush; `RollupLate.RunKeepsOutside` does without.
- RollupRuns.RestartLosesIff: speaks of accumulated samples; snapshots dropped by a full queue, or still queued when a stop ends its five-second wait, never reach the log.
- RollupLate.LateStaysInItsHour: assumes that the time passed to maintenance and to restarts does not go back, and that GPM rollups stay enabled or disabled across restarts.
- RollupSink.RollupSink.AccumulateSnapshot: a node and a GPU identity are one key, and node rows, sessions and raw snapshots written beside the rollups are not modelled.
- RollupSink.RollupSink.RunScheduledMaintenance: the retry delay after failures only skips runs and is not modelled; closing stale sessions neither.
- SampleRing.Ring.Append: the parallel value arrays are one array of rows, so a slot's eleven values are written together.
- LiveConnection.Connection.OnMessage: the page's callbacks do not call back into the connection.
- RpcBroker.AgentRpcBroker.Request: request identifiers are unused ones, as random UUIDs are in practice.
- ClusterState.ClusterState.IngestSample: parsing of the payload is one step that gives a body or fails; runtimes are values replaced in the dictionary, not shared objects; status derived from elapsed time is not modelled.
- MetricsDelta.SupportedMetricsDelta.Apply: only the fields the delta touches are modelled.
- Paging.WalkShowsAll: the list's signature is a parameter; a hash collision between two lists is outside the model.
- JobLookup.GetJob: how floats are printed and read is a parameter; integers in other than plain decimal form are refused, which changes no answer since no row prints such a key.
- JobLookup.GroupJobs: sorting sessions and GPUs for output, and rows of equal last sight that SQL may order differently in the two queries, are not modelled.
- Raster.BrailleChart: labels, colours and the time axis are not modelled.
- GpuSampleRing (highres.py) keeps the same kind of ring as the one modelled here; it would add easy members.
- Card identity, compact model names and job keys inside a usage row are given fields of the row.
- Collector, TUI model, analytics dashboards, heat maps and front-end components: they add only easy members.
