# Assayist, verified

Assayist benchmarks virtual machines: eBPF gadgets count latencies in the kernel, an
orchestrator drives runs over a parameter matrix and attributes network traffic to guests,
and a gate decides from the recorded runs whether a candidate got worse. This project models
the parts of it where a wrong answer would go unnoticed, and proves them right, or proves
exactly when they are. `dafny verify dfyconfig.toml` checks all of it.

| files | what they model |
|---|---|
| `Powers`, `Sums`, `Clock`, `BpfMaps`, `Slots`, `HistMaps`, `Histograms` | clock and bucket arithmetic, bounded kernel maps |
| `Traces`, `Kvm`, `Block`, `Ctrlplane` | the three gadgets as machines over event traces: one handler call is one step |
| `Percentiles` | the gate's estimates against the samples behind a histogram |
| `RealSums`, `Shuffles`, `PermutationTest`, `Trend` | the statistics, over the reals |
| `Strings`, `MetricIds`, `WorkloadReports`, `Reduce`, `Gate`, `Verdicts`, `Triad` | from a recorded run to a verdict |
| `Assembly` | from gadget fragments to the run the gate reads |
| `Options`, `Decimal`, `Wire`, `Attribution` | the attribution channel as a transition system |
| `Owner`, `RunIds`, `Session`, `Channels`, `Lifecycle`, `Simulation` | the objects of a run, and that what they do is what that system can do |
| `Cells`, `CanonicalJson`, `JsonReader` | matrix expansion, the A/B split and the hash text of a cell |
| `Otlp`, `OtlpRun`, `OtlpSpans`, `OtlpResource`, `OtlpDocument`, `OtlpMeaning` | OTLP export and import, and what the export says to a reader |

Handlers and objects with fields are classes whose methods are proved against specification
functions; loops are loops with invariants; the theorems are lemmas about those functions.
`Attribution` is a transition system over whole runs in which any write or read may fail.

A trace fits a gadget's maps when no more exits, requests or wakeups are open at any one time, and
no more keys have samples, than the maps have entries; entries that are deleted make room again,
and what the filter rejects takes none. `Kvm.PendingExactly` and its counterparts show that nothing
less would do.

## Where the code and its comments disagree

The model follows the code in each case.

- `capture/block/src/bpf/block.bpf.c:118-132` rules out overflow because the octave is capped. The
  product that can overflow is the remainder times four, from 2^62 + 2^39 on. No real latency is
  that long (146 years); reaching it takes an unsigned underflow of `now - ts`.
  `Slots.LinearSlotMonotoneExactly` has the limit, `Percentiles.HighResBoundExactly` what it costs.
- `crates/gate/src/reduce.rs:39-45` says the memory rule comes ahead of the throughput rule. It
  comes after it, so memory in bytes is misread (`Reduce.MemoryInBytesMisread`;
  `Reduce.MemoryIsLowerBetterExactly` has the condition).
- `capture/kvm/src/bpf/kvm.bpf.c:105-110` promises that a full map is reported. That holds of the
  histogram map; a full exit map loses pairs unreported (`Kvm.ExitMapLossExactly`).
- The block and control-plane gadgets lose pairs, samples and on-CPU time when one of their maps is
  full, and nothing in their output says so. `Block.InflightLossExactly`, `Block.RefusalExactly`,
  `Ctrlplane.WakeupExactly`, `Ctrlplane.RunqLossExactly` and `Ctrlplane.OncpuLossExactly` say from
  how many entries on.
- `crates/gate/src/gate.rs:169` divides by A's mean as it stands, so for a negative mean better and
  worse change places (`Verdicts.WorseBelowZero`).
- `docs/contract-v0.md:139` wants a truncated series flagged and its metrics contaminated. The KVM
  gadget flags its capture as a whole, and assembling the run drops that flag, so the gate never
  sees it: dropped samples pass (`Assembly.DroppedSamplesPass`), and
  `Assembly.OverflowReachesExactly` says what does get through.
- `crates/orchestrate/src/netattrib.rs:288-293` takes a failed registration for one that the owner
  never learned about. If the owner acted and its reply was lost, its entry stays after the run
  has cleaned up; when the stream merely ended, without even poisoning the channel
  (`Lifecycle.LostRegistration`). `Lifecycle.FatesRestoreExactly` says when the map is restored.
- `crates/otlp/src/lib.rs` round trips are stable from the second trip on except for span
  attributes of 2^63 or more, which turn into null and then into the string "null"
  (`OtlpDocument.SecondRoundTripExactly`). In the first trip integer gauges, sums and bounds return
  as floating numbers (`Otlp.IntegerGaugeFloats`).
- `crates/orchestrate/src/def.rs` lets two equal `compare` values through, and then both groups
  run every matching cell (`Cells.PartitionExactly`).

## Model

| member | source | states |
|---|---|---|
| `Slots.Log2U64` | capture/kvm/src/bpf/kvm.bpf.c:49-60 | the branch-free shift-and-or sequence is floor(log2 v) for every 64-bit v > 0 (0 for 0), bracketed by powers of two |
| `Slots.CappedLog2` | capture/kvm/src/bpf/kvm.bpf.c:114-116 | the plain slot is min(floor-log2, 39) |
| `Slots.LogLinearSlot` | capture/block/src/bpf/block.bpf.c:118-132 | the log-linear slot as computed, wrapping product included, is `LinearSlot` and below 160 |
| `Slots.LinearSlotRefinesLog2` | capture/block/src/bpf/block.bpf.c:118-132 | slot/4 is the plain log2 slot for every 64-bit duration, even one whose product wraps |
| `Slots.LinearSlotBrackets` | capture/block/src/bpf/block.bpf.c:118-132 | a duration below 2^40 lies between the quarter-octave edges of its slot |
| `Slots.LinearSlotMonotoneExactly` | capture/block/src/bpf/block.bpf.c:118-132 | longer durations never land lower below a bound if and only if the bound is at most 2^62 + 2^39 |
| `Slots.FirstWrapIs` | capture/block/src/bpf/block.bpf.c:118-132 | the limit is the first duration whose sub-bucket product wraps, 2^62 + 2^39 |
| `Slots.WrapLandsLow` | capture/block/src/bpf/block.bpf.c:118-132 | the witness: the wrapping duration lands in slot 156, the one before it in 159 |
| `Histograms.CollapseToLog2` | capture/block/src/main.rs:51-57 | the in-place pass sums each octave's four sub-buckets |
| `Histograms.CollapseIsLog2` | capture/block/src/main.rs:51-57 | collapsing the log-linear counts of any stream gives exactly its plain log2 counts, total conserved |
| `Histograms.HistogramTotal` | capture/kvm/src/bpf/kvm.bpf.c:118 | the buckets of a histogram sum to the number of samples |
| `Histograms.PrefixTotals` | crates/gate/src/stats.rs:102-117 | a cumulative count is the number of samples in the buckets so far |
| `Percentiles.Log2Percentile` | crates/gate/src/stats.rs:102-117 | the cumulative scan computes the midpoint of the first bucket reaching q*n |
| `Percentiles.ExplicitPercentile` | crates/gate/src/stats.rs:134-150 | the same over explicit bounds, the overflow bucket ending at twice its start |
| `Percentiles.LogLinearBounds` | capture/block/src/main.rs:65-74 | the emitted bounds are the upper edges of all slots but the last |
| `Percentiles.SortedOrderStatistic` | crates/gate/src/stats.rs:102-117 | the counting definition of the k-th smallest sample agrees with sorting |
| `Percentiles.ScanFindsTheSampleBucket` | crates/gate/src/stats.rs:102-117 | for any slotting monotone around it, the scan stops in the very bucket of the true ceil(q*n)-th smallest sample |
| `Percentiles.Log2PercentileError` | crates/gate/src/stats.rs:102-117 | the log2 percentile is the midpoint of the true sample's bucket, off by at most 1/2 of it for 1 <= v < 2^40 |
| `Percentiles.ScanStopsBetween` | crates/gate/src/stats.rs:102-117 | if no smaller sample lands above `hi` and no larger one below `lo`, the scan stops between the two, for any slotting |
| `Percentiles.HighResSameBucket` | crates/gate/src/stats.rs:134-150 | the hires estimate is the midpoint of the true sample's slot, for any samples if v < 5*2^37, and up to 2^62 + 2^39 if no sample's slot wraps |
| `Percentiles.HighResPercentileError` | crates/gate/src/stats.rs:134-150 | the hires percentile is off by at most 1/8 of the true sample for 2 <= v < 7*2^37, a quarter of the log2 bound: any samples if 7v <= 36*2^37, else none that wraps |
| `Percentiles.HighResBoundExactly` | crates/gate/src/stats.rs:134-150 | the 1/8 bound holds of every set of samples with v as its true percentile if and only if 7v <= 36*2^37 |
| `Percentiles.WrapPullsDown` | crates/gate/src/stats.rs:134-150 | why: from 5*2^37 on, one wrapping sample beside v pulls the estimate into the lowest slot of the last octave |
| `Percentiles.LinearMidpointError` | capture/block/src/main.rs:65-74 | every inner slot's midpoint is within 1/8 of every duration in the slot |
| `Percentiles.Log2Mean` | crates/gate/src/stats.rs:121-130 | the loop computes the midpoint-weighted mean |
| `Percentiles.MeanEstimateBrackets` | crates/gate/src/stats.rs:121-130 | for samples in [1, 2^40) the estimate lies in (3/4 m, 3/2 m] of the true mean m |
| `HistMaps.Count` | capture/kvm/src/bpf/kvm.bpf.c:100-118 | find-or-create, refuse when full, else count one sample, is `Aggregated`; recorded exactly if the key fits |
| `HistMaps.SampleAccounted` | capture/kvm/src/bpf/kvm.bpf.c:100-118 | one more sample is in the map or was refused by a full one; no entry leaves |
| `Kvm.Probe.HandleKvmEntry` | capture/kvm/src/bpf/kvm.bpf.c:83-121 | the handler pairs, counts or drops, and always clears the pending exit; its unsigned subtraction is `Clock.Delta` |
| `Kvm.PendingIsOpen` | capture/kvm/src/bpf/kvm.bpf.c:67-121 | as long as no more exits are open at once than the exit map holds, a thread has a pending exit exactly when its latest exit is unconsumed, and it is that one |
| `Kvm.PendingExactly` | capture/kvm/src/bpf/kvm.bpf.c:67-121 | the pending exits are the open ones throughout a trace if and only if the open ones always fit the map |
| `Clock.Delta` | capture/kvm/src/bpf/kvm.bpf.c:95 | the unsigned subtraction is the plain one on a clock that has not gone back, and 2^64 less the step back on one that has |
| `Kvm.EntryCountsElapsed` | capture/kvm/src/bpf/kvm.bpf.c:83-121 | in every trace whose open exits fit, what the handler counts for a pair is `trace[n].now - trace[x].ts`, plainly, unless the clock went back between the two |
| `Kvm.HistogramsAreOffline` | capture/kvm/src/bpf/kvm.bpf.c:67-121 | for any interleaving that fits the maps (exits open at once, keys with samples) every bucket equals the offline count of the plain times between each entry and its thread's latest unconsumed exit |
| `Kvm.OfflineExactly` | capture/kvm/src/bpf/kvm.bpf.c:67-121 | if the open exits fit, the histograms are the offline ones if and only if no more keys have samples than the map holds |
| `Kvm.SingletonIsSumOfGuests` | capture/kvm/src/bpf/kvm.bpf.c:67-121 | the singleton histogram is the pointwise sum over cgroups of the per-guest ones |
| `Kvm.NoSilentTruncation` | capture/kvm/src/bpf/kvm.bpf.c:100-120 | along every run, whatever the map sizes, recorded + dropped = matched pairs, the map stays within its size, and a drop means it is full |
| `Kvm.HistogramIsOfLatencies` | capture/kvm/src/bpf/kvm.bpf.c:67-121 | after any trace that fits, a key's whole histogram is the log2 histogram of the plain times between exit and entry of its pairs, and a key without an entry has none |
| `Kvm.LatencyPercentile` | crates/gate/src/stats.rs:102-117 | from trace to gate: the percentile read from a key's histogram is the midpoint of the bucket of that percentile among the trace's latencies, within 1/2 for 1 <= v < 2^40 |
| `Kvm.LatencyMean` | crates/gate/src/stats.rs:121-130 | from trace to gate: the mean read from a key's histogram lies in (3/4 m, 3/2 m] of the mean m of the trace's latencies in [1, 2^40) |
| `Histograms.Tally` | capture/kvm/src/main.rs:178-188 | the parsed count is the total of the buckets |
| `Kvm.Readout` | capture/kvm/src/main.rs:211-258 | one series per live key with samples, none else, and overflow exactly at capacity |
| `Kvm.ReadoutAfter` | capture/kvm/src/main.rs:211-258 | after any run: a drop sets overflow, without overflow every matched pair is in the output, and if the trace fits every emitted series holds the histogram and count of its key's latencies |
| `Kvm.MatchedAreAllPairs` | capture/kvm/src/bpf/kvm.bpf.c:67-121 | with room for the exits open at once the matched entries are all pairs |
| `Kvm.ExitMapLossExactly` | capture/kvm/src/bpf/kvm.bpf.c:67-121 | all pairs of every trace with at most n exits open at once are matched if and only if n is within the exit map, which no flag watches |
| `Kvm.CrowdLosesAPair` | capture/kvm/src/bpf/kvm.bpf.c:76 | one thread too many loses a pair that neither the drop count nor overflow reports |
| `Block.Probe.HandleComplete` | capture/block/src/bpf/block.bpf.c:82-138 | the completion consumes the issue and every stored entry stays the aggregate of the samples kept for its key |
| `Block.Probe.Record` | capture/block/src/bpf/block.bpf.c:82-138 | one sample is aggregated under its device and direction, or refused by a full map |
| `Block.AggregateAppend` | capture/block/src/bpf/block.bpf.c:118-136 | one more sample bumps exactly its slot and adds its bytes modulo 2^64 |
| `Block.CountKeepsSummary` | capture/block/src/bpf/block.bpf.c:82-138 | counting keeps every entry the aggregate of its samples |
| `Block.InFlightExactly` | capture/block/src/bpf/block.bpf.c:60-138 | the requests in flight are the open ones throughout a trace if and only if no more are open at once than the in-flight map holds |
| `Block.InflightLossExactly` | capture/block/src/bpf/block.bpf.c:60-92 | all pairs of every trace with at most n requests open at once are matched if and only if n is within the in-flight map, which no flag watches |
| `Block.SamplesAreOffline` | capture/block/src/bpf/block.bpf.c:60-138 | for any trace that fits the maps (requests open at once, devices and directions with samples) the samples kept for a key are, in order, the plain times and the bytes of each completion paired with the latest unconsumed issue of its device and sector |
| `Block.OfflineExactly` | capture/block/src/bpf/block.bpf.c:82-138 | if the open requests fit, the samples are the offline ones if and only if no more devices and directions have samples than the stats map holds |
| `Block.EntryIsOffline` | capture/block/src/bpf/block.bpf.c:60-138 | so the stored entry is the aggregate of exactly those samples |
| `Block.SamplesAccounted` | capture/block/src/bpf/block.bpf.c:82-138 | along every run, whatever the map sizes, kept + refused = matched completions, and a refusal means a full map |
| `Block.RefusalExactly` | capture/block/src/bpf/block.bpf.c:102-116 | no trace with samples of at most d devices and directions loses one to a full stats map if and only if d is within it; no flag reports the loss |
| `Block.OutputIsFaithful` | capture/block/src/main.rs:51-61 | what an entry emits is the log2 histogram of its durations, none lost, with percentiles within 1/2 for 1 <= v < 2^40, whatever the samples |
| `Block.HighResOutputIsFaithful` | capture/block/src/main.rs:63-74 | under hires the emitted percentiles are within 1/8, under the exact condition of `Percentiles.HighResBoundExactly` |
| `Ctrlplane.Probe.OnSwitch` | capture/ctrlplane/src/bpf/ctrlplane.bpf.c:119-169 | the switch ends the outgoing slice, starts the next and takes the incoming task's wakeup |
| `Ctrlplane.Probe.AttributeSlice` | capture/ctrlplane/src/bpf/ctrlplane.bpf.c:119-169 | the ended slice goes to the cgroup recorded for that CPU |
| `Ctrlplane.Probe.SampleRunq` | capture/ctrlplane/src/bpf/ctrlplane.bpf.c:119-169 | a stored wakeup yields one run-queue sample and is consumed |
| `Ctrlplane.CurrentIsLastSwitch` | capture/ctrlplane/src/bpf/ctrlplane.bpf.c:119-169 | the per-CPU record names the task of that CPU's last switch exactly if it is allowed |
| `Ctrlplane.OncpuIsReplay` | capture/ctrlplane/src/bpf/ctrlplane.bpf.c:119-169 | the accumulators are a replay of the slices between consecutive switches of a CPU |
| `Ctrlplane.AccumulatorsAreSlices` | capture/ctrlplane/src/bpf/ctrlplane.bpf.c:119-169 | filter on or off, each accumulator is the sum of its allowed cgroup's slices, whenever no more allowed cgroups have slices than the map holds |
| `Ctrlplane.FilteredTimeKept` | capture/ctrlplane/src/bpf/ctrlplane.bpf.c:45-90 | with the filter on that is every trace, if the map holds the allowed cgroups |
| `Ctrlplane.OncpuLossExactly` | capture/ctrlplane/src/bpf/ctrlplane.bpf.c:119-132 | filter off: on-CPU time is kept in every trace with slices of at most n cgroups if and only if n is within the map; no flag reports the loss |
| `Ctrlplane.OnCpuConserved` | capture/ctrlplane/src/bpf/ctrlplane.bpf.c:119-169 | filter off: the slices of all cgroups add up to the sum over CPUs of last minus first switch |
| `Ctrlplane.AccumulatorsConserveTime` | capture/ctrlplane/src/bpf/ctrlplane.bpf.c:119-169 | so do the emitted accumulators, whenever the time fits 64 bits and no more cgroups have slices than the map holds |
| `Ctrlplane.WakeupIsOpen` | capture/ctrlplane/src/bpf/ctrlplane.bpf.c:92-169 | as long as no more allowed wakeups are open at once than the map holds, a task has a stored wakeup exactly when its latest allowed wakeup is unconsumed, and it is that one |
| `Ctrlplane.WakeupExactly` | capture/ctrlplane/src/bpf/ctrlplane.bpf.c:92-169 | the stored wakeups are the open ones throughout a trace if and only if the open ones always fit the map |
| `Ctrlplane.RunqIsOffline` | capture/ctrlplane/src/bpf/ctrlplane.bpf.c:92-169 | for any trace that fits the maps (allowed wakeups open at once, cgroups with samples) every run-queue bucket equals the offline count pairing each switch-in with its task's latest unconsumed wakeup |
| `Ctrlplane.FilteredFits` | capture/ctrlplane/src/bpf/ctrlplane.bpf.c:45-90 | with the filter on the cgroups with samples always fit a map that holds the allowed ones |
| `Ctrlplane.DropsExactly` | capture/ctrlplane/src/bpf/ctrlplane.bpf.c:134-155 | if the open wakeups fit, a trace drops no sample if and only if no more cgroups have samples than the map holds |
| `Ctrlplane.RunqLossExactly` | capture/ctrlplane/src/bpf/ctrlplane.bpf.c:134-155 | filter off: no trace with samples of at most n cgroups drops one if and only if n is within the map; no flag reports a drop |
| `Ctrlplane.WakeupSampledOnce` | capture/ctrlplane/src/bpf/ctrlplane.bpf.c:92-169 | no wakeup is the one behind two samples |
| `Ctrlplane.SamplesAccounted` | capture/ctrlplane/src/bpf/ctrlplane.bpf.c:92-169 | with room for the wakeups open at once, whatever room there is for histograms, recorded + dropped samples are the switches that bring in a task with an open wakeup, and a drop means a full map |
| `Ctrlplane.HistogramIsOfLatencies` | capture/ctrlplane/src/bpf/ctrlplane.bpf.c:92-169 | after any trace that fits, a cgroup's whole histogram is the log2 histogram of its run-queue latencies in the trace, and a cgroup without an entry has none |
| `Ctrlplane.LatencyPercentile` | crates/gate/src/stats.rs:102-117 | from trace to gate: the percentile read from a cgroup's histogram is the midpoint of the bucket of that percentile among the trace's run-queue latencies, within 1/2 for 1 <= v < 2^40 |
| `Ctrlplane.LatencyMean` | crates/gate/src/stats.rs:121-130 | from trace to gate: the mean read from a cgroup's histogram lies in (3/4 m, 3/2 m] of the mean m of its latencies in [1, 2^40) |
| `Shuffles.ShuffleIsBijection` | crates/gate/src/stats.rs:85-90 | every ordering of distinct entries is produced by exactly one choice vector with c[i] <= i |
| `Shuffles.UnshuffleProduces` | crates/gate/src/stats.rs:85-90 | the choice vector is constructed: shuffling with it gives the ordering |
| `Shuffles.ShuffleInjective` | crates/gate/src/stats.rs:85-90 | different choice vectors give different orderings |
| `Shuffles.ShufflePermutes` | crates/gate/src/stats.rs:85-90 | the shuffle keeps the multiset |
| `Shuffles.ShuffleMovesPositions` | crates/gate/src/stats.rs:85-90 | the shuffle moves positions and never looks at the values, so equal values change nothing |
| `PermutationTest.ShuffleInPlace` | crates/gate/src/stats.rs:85-90 | the swapping loop is the shuffle with the generator's choices |
| `PermutationTest.Resample` | crates/gate/src/stats.rs:83-96 | one resample shuffles the carried-over pool and compares the gaps |
| `PermutationTest.CountExtreme` | crates/gate/src/stats.rs:83-96 | the pool, never reset, stays a permutation of the samples; the count is that of the extreme resamples |
| `PermutationTest.PermutationP` | crates/gate/src/stats.rs:70-98 | the method computes `PValue`, 1 for an empty side; `PValueCounts` says what that is |
| `PermutationTest.PValueCounts` | crates/gate/src/stats.rs:70-98 | p is 1 plus the number of shuffled pools whose last |b| and first |a| values have means as far apart as the groups' own, give or take 10^-12, over R + 1; the means and the distance are written out |
| `PermutationTest.OwnSplitIsExtreme` | crates/gate/src/stats.rs:70-98 | a pool whose first |a| values are those of a in any order always counts |
| `PermutationTest.OwnSplitsCount` | crates/gate/src/stats.rs:70-98 | so p is at least the share, plus one, of the resamples that deal the groups their own values |
| `PermutationTest.PValueBounds` | crates/gate/src/stats.rs:70-98 | p lies in [1/(R+1), 1] |
| `PermutationTest.EqualMeansGiveOne` | crates/gate/src/stats.rs:70-98 | equal means give p = 1 for every seed |
| `RealSums.MeanReordered` | crates/gate/src/stats.rs:30-35 | the mean ignores the order of the values |
| `Trend.LinregSlopeStderr` | crates/gate/src/stats.rs:154-182 | the loops compute the fitted slope and its squared standard error; the `sxx == 0` exit is dead code |
| `Trend.SxxClosed` | crates/gate/src/stats.rs:154-182 | sxx = n(n^2 - 1)/12, positive from two points on |
| `Trend.ResidualsVanish` | crates/gate/src/stats.rs:154-182 | the residuals sum to zero and are orthogonal to the index |
| `Trend.FitIsOptimal` | crates/gate/src/stats.rs:154-182 | slope and intercept are the unique minimiser of the squared error over all lines |
| `Trend.StderrClosed` | crates/gate/src/stats.rs:173-181 | squared standard error times n - 2 times n(n^2 - 1)/12 is the least squared error |
| `MetricIds.LabelsSuffix` | crates/gate/src/reduce.rs:107-120 | the loop appends the labels sorted by key |
| `MetricIds.BuildId` | crates/gate/src/reduce.rs:169-222 | the id is name, optional key, sorted labels and reduction, bar-separated |
| `MetricIds.IdDetermines` | crates/gate/src/reduce.rs:107-222 | two ids are equal exactly when name, key, label map and reduction are, for names and values without bars, keys without equals signs and label keys without either; label order never matters |
| `MetricIds.NameBarCollides` | crates/gate/src/reduce.rs:169-173 | a bar in a name: two different series share an id |
| `MetricIds.KeyEqualsCollides` | crates/gate/src/reduce.rs:169-173 | so they do with an equals sign in a key |
| `MetricIds.LabelKeyBarCollides` | crates/gate/src/reduce.rs:107-120 | so they do with a bar in a label key |
| `MetricIds.LabelKeyEqualsCollides` | crates/gate/src/reduce.rs:107-120 | so they do with an equals sign in a label key, beside one in a value |
| `MetricIds.ValueBarCollides` | crates/gate/src/reduce.rs:107-120 | so they do with a bar in a label value: every clause of the condition is needed |
| `MetricIds.NumbersJoinTheirText` | crates/gate/src/reduce.rs:96-101 | a numeric label joins with the string that spells it |
| `MetricIds.FlagsJoinTheirText` | crates/gate/src/reduce.rs:96-101 | so does a boolean label |
| `MetricIds.SpansKeepApart` | crates/gate/src/reduce.rs:268-280 | a span's duration id never equals a series id, for any span and series |
| `Reduce.MemoryIsLowerBetterExactly` | crates/gate/src/reduce.rs:28-56 | a memory-consumption id is lower-better exactly when nothing about it looks like throughput: the condition behind the misreading |
| `Reduce.MemoryInBytesMisread` | crates/gate/src/reduce.rs:28-56 | memory counted in bytes is read as higher-better, against the comment |
| `Reduce.PolarityExactly` | crates/gate/src/reduce.rs:28-56 | exactly which ids and units are higher-better and which lower-better |
| `Reduce.CollectOverbudget` | crates/gate/src/reduce.rs:124-137 | exactly the identified probes over budget |
| `Reduce.ReduceHistogram` | crates/gate/src/reduce.rs:191-222 | mean, p50 and p99 by layout, an exact mean when sum and count are present |
| `Reduce.HistogramReports` | crates/gate/src/reduce.rs:185-223 | a log2 histogram of samples reports `|mean`, exact when sum and count are known, and under `|p50` and `|p99` estimates within 1/2 of the true median and 99th percentile |
| `Reduce.CounterReports` | crates/gate/src/reduce.rs:224-232 | a counter reports its value and, over a positive window, a rate that times the window in seconds is the value |
| `Reduce.WorkloadReports` | crates/gate/src/reduce.rs:249-266 | a leaf of the workload report keeps its value; one with a time suffix is lower-better unless its name says otherwise |
| `Reduce.SpanReports` | crates/gate/src/reduce.rs:269-279 | a span reports end minus start, lower-better |
| `WorkloadReports.FlattenNumbers` | crates/gate/src/reduce.rs:65-80 | the recursive walk appends the numeric leaves of a report under their dotted paths |
| `WorkloadReports.FlattenListsLeaves` | crates/gate/src/reduce.rs:65-80 | a name and number are listed exactly when some path of keys leads to that number and spells that name |
| `Reduce.ReduceRun` | crates/gate/src/reduce.rs:145-283 | the loops produce the metrics of all series, workload leaves and spans, in order |
| `Reduce.ContaminatedExactly` | crates/gate/src/reduce.rs:124-167 | a run reports a contaminated metric under an id exactly when a series of an over-budget source, or an overflowed series or run, yields that id |
| `Reduce.UnnamedProbeChangesNothing` | crates/gate/src/reduce.rs:124-167 | a probe cost without a probe id changes no metric of its run |
| `Gate.Add` | crates/gate/src/gate.rs:91-99 | one observation keeps all four tables in step with what was observed |
| `Gate.Collect` | crates/gate/src/gate.rs:82-103 | samples, contamination, first polarity and distinct cells of every id, ids sorted |
| `Gate.ValidateGroup` | crates/gate/src/gate.rs:115-142 | the first refused grade, or the group's notes and tenancies |
| `Gate.Validate` | crates/gate/src/gate.rs:115-142 | admits exactly reproducible (or allowed) groups of at most one tenancy; else the first refusal |
| `Gate.OneTenancyClass` | crates/gate/src/gate.rs:134-141 | at most one class means no two runs of either group state different tenancies |
| `Gate.CovIsRatio` | crates/gate/src/stats.rs:53-66 | the squared coefficient of variation is the square of standard deviation over absolute mean |
| `Gate.NoisyByRoot` | crates/gate/src/stats.rs:53-66 | the reported noise is the square of the larger coefficient, and comparing squares is comparing the coefficients |
| `Gate.IgnoredExactly` | crates/gate/src/gate.rs:163 | an id is ignored exactly when some pattern occurs in it somewhere |
| `Gate.VarianceClosed` | crates/gate/src/stats.rs:38-46 | variance times n - 1 is the sum of squares less n times the squared mean |
| `Gate.JudgeAll` | crates/gate/src/gate.rs:155-219 | the loop over A's ids tallies exactly the ids with two samples on each side |
| `Gate.Ab` | crates/gate/src/gate.rs:144-242 | the whole comparison is `Decide`, about which the verdict theorems speak |
| `Verdicts.TaintedExactly` | crates/gate/src/gate.rs:82-103 | an id is contaminated in a group exactly when, in some run, a dirty series yields it |
| `Verdicts.RefusedExactly` | crates/gate/src/gate.rs:144-226 | `ab` errs exactly for inadmissible groups or when no id has two samples in each |
| `Verdicts.ContaminatedVerdictExactly` | crates/gate/src/gate.rs:155-236 | on success the verdict is contaminated exactly when some unignored comparable id comes, in some run of either group, from an over-budget source or an overflow |
| `Verdicts.RelDeltaMeans` | crates/gate/src/gate.rs:169 | A's mean times 1 + rel is B's; rel is positive exactly when B's mean is above a positive mean of A, or below a negative one; 0 or 1 from zero |
| `Verdicts.WorseAboveZero` | crates/gate/src/gate.rs:169-202 | for a positive mean of A, worse is at least (1 + effect) times it if lower is better, at most (1 - effect) times it if higher is |
| `Verdicts.WorseBelowZero` | crates/gate/src/gate.rs:169-202 | for a negative mean it is the other way round |
| `Verdicts.ImprovedExactly` | crates/gate/src/gate.rs:178-202 | an id improved or changed exactly when it moved significantly, quietly and by enough and did not get worse, with or without a direction |
| `Verdicts.FailedVerdictExactly` | crates/gate/src/gate.rs:155-236 | on success the verdict is fail exactly when nothing is contaminated and for some comparable id p is below the threshold, the noise is not too high and B's mean is worse than A's by the effect's share of it, as `Worse` writes out in the two means |
| `Verdicts.UnreachableThresholdNeverFails` | crates/gate/src/gate.rs:170-176 | a threshold of at most 1/(R+1) never fails |
| `Verdicts.SamplesReordered` | crates/gate/src/gate.rs:82-103 | reordering the runs reorders the samples of every id |
| `Verdicts.ReorderingNeverFails` | crates/gate/src/gate.rs:144-236 | comparing runs with a reordering of themselves never fails, under any configuration |
| `Triad.TriadVerdictExactly` | crates/gate/src/gate.rs:320-363 | contaminated exactly when `ab` is; otherwise fail exactly when `ab` fails or some probe of B is over budget |
| `Triad.OverIdsExactly` | crates/gate/src/gate.rs:327-344 | the reported probes are exactly those over budget, each once |
| `Triad.WorstIsLargest` | crates/gate/src/gate.rs:327-344 | the reported fraction bounds every cost of its probe and is attained unless zero |
| `Triad.UnnamedProbeOnlyFails` | crates/gate/src/gate.rs:320-363 | adding a probe without an id over budget to a run of B changes no metric, and makes the triad fail unless `ab` is contaminated |
| `Assembly.Assemble` | crates/contract/src/lib.rs:126-163 | the loop merges the fragments' series and probe costs; the run is the one the gate reads, without capture metadata |
| `Assembly.Grade` | crates/contract/src/lib.rs:170-185 | reproducible exactly for a tuned, fully described, captured run whose probes, if any ran, left a cost record |
| `Assembly.MetaIsForgotten` | crates/contract/src/lib.rs:126-163 | whatever the fragments say of overflow and window, the run is the one they give if they say nothing; so no counter of it ever has a rate |
| `Assembly.DirtyExactly` | crates/gate/src/reduce.rs:145-167 | an assembled run has a dirty series for an id exactly when some fragment's series carries its own flag, or comes from a probe over budget, and yields the id |
| `Assembly.OverflowReachesExactly` | crates/gate/src/gate.rs:144-236 | exactly when an overflow or a budget overrun reaches the verdict on assembled runs |
| `Assembly.OverflowPasses` | crates/gate/src/gate.rs:144-236 | a fragment that flags its capture but not its series gives runs that pass against each other |
| `Assembly.DroppedSamplesPass` | capture/kvm/src/main.rs:211-275 | end to end: whenever the KVM histogram map drops some samples and keeps others, the fragment raises its flag and the assembled runs still pass |
| `Assembly.SecondReasonDropped` | capture/kvm/src/bpf/kvm.bpf.c:100-120 | and that case occurs |
| `Wire.LineWords` | crates/orchestrate/src/netattrib.rs:262-272 | the words of every rendered command |
| `Wire.WireRoundTrip` | capture/netattrib/src/main.rs:115-137 | the owner parses every rendered command back, unchanged exactly when its state is a lifecycle state (others become running) |
| `Wire.ReplyRoundTrip` | crates/orchestrate/src/netattrib.rs:235-260 | the client takes a reply for success exactly when the owner meant success |
| `Decimal.RenderParses` | crates/orchestrate/src/netattrib.rs:169 | every number below the limit survives rendering and parsing, larger ones are refused |
| `Attribution.StepKeeps` | crates/orchestrate/src/netattrib.rs:235-306 | every step, with an I/O error possible at each, keeps the channel invariant |
| `Attribution.ReachableStatesAreSafe` | capture/netattrib/src/main.rs:207-326 | in every reachable state an idle errorless client has nothing outstanding, no two entries carry a handle, and every provenance row is an applied add |
| `Attribution.SuccessMeansApplied` | crates/orchestrate/src/netattrib.rs:235-260 | a success means the owner has applied exactly that command since it was sent |
| `Attribution.NoSuccessAfterError` | crates/orchestrate/src/netattrib.rs:235-260 | after an I/O error nothing ever succeeds and the table never changes |
| `Attribution.HandlesNeverReused` | crates/orchestrate/src/netattrib.rs:85-93 | two registrations never get the same handle, even after failed adds |
| `Owner.MapOwner.KeyForHandle` | capture/netattrib/src/main.rs:207-216 | finds some key carrying the handle, or there is none |
| `Owner.MapOwner.Apply` | capture/netattrib/src/main.rs:218-253 | applies one command or leaves the map alone; exactly the possible commands succeed; counters and peaks |
| `Owner.MapOwner.ServeLine` | capture/netattrib/src/main.rs:279-326 | every line gets one reply, done exactly if it parses and can be carried out without a fault, and each reply is counted once |
| `Session.ControlClient.Command` | crates/orchestrate/src/netattrib.rs:235-260 | poisoned refuses; an I/O error poisons; success is a bare ok |
| `Session.HandleTable.ProvenanceRows` | crates/orchestrate/src/netattrib.rs:129-145 | the rows are exactly the table, sorted by handle |
| `Session.AttributionSession.Register` | crates/orchestrate/src/netattrib.rs:294-306 | a row is recorded only if the owner accepted; the handle is spent either way |
| `Session.RewriteVmIdLabels` | crates/orchestrate/src/netattrib.rs:158-184 | every series rewritten in place, unknown handles reported once in order |
| `Session.HandleResolves` | crates/orchestrate/src/netattrib.rs:158-184 | a label holding a known handle becomes that handle's id |
| `Session.RewriteTwiceExactly` | crates/orchestrate/src/netattrib.rs:158-184 | a second rewrite changes no label if and only if every id in the table that reads as a handle rewrites to itself |
| `Session.SameReportExactly` | crates/orchestrate/src/netattrib.rs:158-184 | it reports the same unknown labels for all series if and only if no id in the table reads as an unknown handle |
| `Session.IssuedIdsRewriteOnce` | crates/orchestrate/src/netattrib.rs:158-184 | for the ids that runs are given, a second rewrite changes nothing and reports the same |
| `Session.SwappedIdsNeverSettle` | crates/orchestrate/src/netattrib.rs:158-184 | any two handles whose ids spell each other are swapped by every rewrite, for ever, and nothing is reported |
| `RunIds.IssuedIsNoHandle` | crates/orchestrate/src/run.rs:87-107 | a run id with a nonzero timestamp never parses as a handle, whatever its entropy |
| `Lifecycle.Run.RegisterAll` | crates/orchestrate/src/adapter.rs:512-556 | registers each tap, stopping at the first failure with the attributed handles on record; the owner holds exactly what it carried out, confirmed or not |
| `Lifecycle.Run.DeregisterAll` | crates/orchestrate/src/adapter.rs:636-645 | one removal per handle, in order, whether or not it succeeds |
| `Lifecycle.Run.CleanUp` | crates/orchestrate/src/adapter.rs:608-609 | removals then exactly one teardown; the owner's map is what it was exactly when every removal was carried out and no registration was lost |
| `Lifecycle.Run.ExecuteRun` | crates/orchestrate/src/adapter.rs:490-631 | the run completes exactly when every step succeeds, and every outcome has the trace of exactly the steps up to the one it names; every exit after steady except a failing span read ends in the full cleanup, and at every exit the owner holds exactly what it carried out and did not undo, for every fate of every command |
| `Lifecycle.CompletedExactly` | crates/orchestrate/src/adapter.rs:490-631 | a run whose trace has the stages of its outcome completes if and only if it steadies, has a tap and every registration and state confirmed if it attributes, and every spawn, the workload, every wait, the spans and the teardown succeed |
| `Lifecycle.RestoredExactly` | crates/orchestrate/src/adapter.rs:490-631 | given fresh taps and handles, the map after a cleaned-up run is the one before if and only if every removal was carried out and no registration without being confirmed |
| `Lifecycle.RestoredUnlessLost` | crates/orchestrate/src/adapter.rs:636-645 | of the runs that see every removal confirmed, exactly those without a lost registration restore the map |
| `Lifecycle.LostAddIsTheFirst` | crates/orchestrate/src/adapter.rs:636-645 | and a run that loses one and sees no failed removal lost its first: it attributed nothing, so it removes nothing |
| `Lifecycle.FatesRestoreExactly` | crates/orchestrate/src/adapter.rs:490-631 | with room and a working channel, exactly which fates restore the map: the owner is there for every removal and acts on it, and answers every registration it is there for and acts on |
| `Lifecycle.LostRegistration` | crates/orchestrate/src/netattrib.rs:235-306 | the witness run: the owner adds the entry and dies before answering, and the run ends cleaned up, unpoisoned, with no removal failed and the entry left |
| `Simulation.ExchangeIsAPath` | crates/orchestrate/src/netattrib.rs:235-306 | whatever a command meets (answered, broken off, the stream ended, poisoned, the owner gone) is a path of the attribution system with that one command |
| `Simulation.PathIsAnExchange` | crates/orchestrate/src/netattrib.rs:235-306 | conversely every path of the system with one command, from rest to rest, is one of those fates |
| `Simulation.HistoryIsAPath` | crates/orchestrate/src/adapter.rs:490-631 | the history of a run is one path of the system, which confirms exactly the commands the run saw succeed and applies exactly those carried out |
| `Simulation.RunIsAPath` | crates/orchestrate/src/adapter.rs:490-631 | so the whole of a run, registrations and removals included, is one path |
| `Simulation.RegisterThrough` | crates/orchestrate/src/netattrib.rs:294-306 | a registration through session, client, table and owner is a path, and its handle is returned exactly if the system confirms it |
| `Simulation.RegisterUnanswered` | crates/orchestrate/src/netattrib.rs:294-306 | so is one whose reply never arrives, by an I/O error or the end of the stream, delivered or not: nothing is confirmed, the handle is spent, and only an error poisons |
| `Simulation.RegistrationCanSucceed` | crates/orchestrate/src/netattrib.rs:294-306 | from the start a registration can be sent, applied and confirmed: the safety results are not vacuous |
| `Simulation.RegistrationCanBeLost` | crates/orchestrate/src/netattrib.rs:235-260 | from the start the system reaches a client at rest, unpoisoned and told of no error, whose owner holds an entry it knows nothing of |
| `Cells.ExpandCells` | crates/orchestrate/src/def.rs:241-257 | the nested loops build the product |
| `Cells.ProductLength` | crates/orchestrate/src/def.rs:241-257 | as many cells as the product of the axis lengths |
| `Cells.CellAtRank` | crates/orchestrate/src/def.rs:241-257 | the cell of a choice stands at the choice's mixed-radix rank |
| `Cells.ExpansionIsLexicographic` | crates/orchestrate/src/def.rs:241-257 | the cells are the choices of values in lexicographic order |
| `Cells.EachCombinationOnce` | crates/orchestrate/src/def.rs:241-257 | with distinct values every combination is listed exactly once |
| `Cells.ABSplit` | crates/orchestrate/src/main.rs:668-677 | comparing on two distinct values partitions the cells into equal groups whose k-th cells agree on every other dimension |
| `Cells.PartitionExactly` | crates/orchestrate/src/main.rs:668-677 | the groups partition the cells exactly when the values differ or there are no cells |
| `CanonicalJson.ReadOnce` | crates/orchestrate/src/def.rs:279-296 | canonical text is uniquely decodable even with a delimited rest behind it |
| `CanonicalJson.SameText` | crates/orchestrate/src/def.rs:279-296 | equality up to key order gives equal text |
| `CanonicalJson.CanonicalTextIsUnique` | crates/orchestrate/src/def.rs:279-296 | two values have the same canonical text exactly when equal up to key order at every depth |
| `CanonicalJson.HashMergesOnlyOnCollision` | crates/orchestrate/src/def.rs:275-277 | two cells have the same `params_hash` if and only if they are equal up to key order or their own two texts differ and collide |
| `JsonReader.TextReadBack` | crates/orchestrate/src/def.rs:279-296 | an independent reader after RFC 8259 reads canonical text back as the value with its keys sorted, and stops where it ends |
| `JsonReader.CanonicalTextIsJson` | crates/orchestrate/src/def.rs:279-296 | so canonical text is JSON for the value, up to the order of keys |
| `Strings.SortForgetsOrder` | crates/orchestrate/src/def.rs:282-283 | sorting unique keys forgets their order and nothing else |
| `Strings.BeforeExactly` | crates/orchestrate/src/def.rs:282-283 | the order of keys is that of the first character in which they differ, a prefix first |
| `Otlp.U64Survives` | crates/otlp/src/lib.rs:362-365 | a u64 survives `u64_str` and `str_u64`; anything else reads as zero |
| `Otlp.IntSurvives` | crates/otlp/src/lib.rs:340-349 | an integer attribute parses back exactly below 2^63 |
| `Otlp.TripIs` | crates/otlp/src/lib.rs:178-226 | an exportable series comes back with name, kind, source, key, unit and the stated data, losing labels, overflow and cardinality; nothing else comes back |
| `Otlp.MeasurementSurvivesExactly` | crates/otlp/src/lib.rs:537-585 | a series comes back with its name, unit, kind, source, key and data, numbers compared as numbers, if and only if it is named, with unit, known kind and data of that kind, whatever else it declares |
| `Otlp.IntegerGaugeFloats` | crates/otlp/src/lib.rs:537-585 | an integer gauge comes back as the same number, written as a floating one |
| `Otlp.SurvivesExactly` | crates/otlp/src/lib.rs:537-585 | it comes back identical if and only if, besides, its sum, bounds and gauge value are floating and it has no labels, overflow or cardinality, which every contract series declares |
| `Otlp.SecondTripChangesNothing` | crates/otlp/src/lib.rs:537-585 | whatever comes back is well formed and stable |
| `Otlp.BucketsKeptExactly` | crates/otlp/src/lib.rs:228-290 | buckets survive exactly when all are integers in [0, 2^63) |
| `Otlp.HugeBucketShifts` | crates/otlp/src/lib.rs:231-235 | a bucket of 2^63 or more is dropped, moving every later one down |
| `OtlpRun.ExportMetrics` | crates/otlp/src/lib.rs:174-176 | the exported metrics: exportable series, then two per probe |
| `OtlpMeaning.ScaleZeroHasOctaves` | crates/otlp/src/lib.rs:241-255 | at scale 0 and offset 0 the i-th bucket, which spans the powers i and i + 1 of the 2^scale-th root of two, begins at 2^i |
| `OtlpMeaning.SeriesShown` | crates/otlp/src/lib.rs:178-290 | read without the import: a log2 histogram is a cumulative one of those octaves, an explicit one has the series' own bounds, counters are cumulative and monotonic with value and start, gauges have value and time, and all spell the series' counts, name, unit, source and key |
| `OtlpMeaning.DurationInItsBucket` | crates/otlp/src/lib.rs:241-255 | every duration below 2^40 lies between the edges a reader finds for the bucket that the gadget counts it in |
| `OtlpMeaning.EdgesCountBelow` | crates/otlp/src/lib.rs:20-24 | counting edges with the bucket below, as OTLP does, agrees with the gadget exactly off the powers of two |
| `OtlpMeaning.ProbeShown` | crates/otlp/src/lib.rs:293-331 | a probe becomes its share of a CPU and its run time in ns, under its id, attach kind and budget flag |
| `OtlpMeaning.ExportShows` | crates/otlp/src/lib.rs:174-176 | the exported metrics show every accepted series in order, then every probe |
| `OtlpRun.ImportSeries` | crates/otlp/src/lib.rs:513-535 | the nested loops import every metric outside the probe namespace |
| `OtlpRun.MetricsThereAndBack` | crates/otlp/src/lib.rs:513-535 | export then import trips each series and never turns a probe metric into one |
| `OtlpRun.SeriesRoundTrip` | crates/otlp/src/lib.rs:178-226 | captured series outside the probe namespace, integer gauges and bounds included, all come back, in order, each with its name, unit, kind, source, key and data |
| `OtlpRun.SecondImportChangesNothing` | crates/otlp/src/lib.rs:513-535 | for any series and probes a second round trip of the series changes nothing |
| `OtlpSpans.KvListToObject` | crates/otlp/src/lib.rs:615-635 | attributes collected into an object, later duplicates winning |
| `OtlpSpans.ExportSpans` | crates/otlp/src/lib.rs:120-157 | ids indexed by first name, then the spans with resolved parents |
| `OtlpSpans.ImportSpans` | crates/otlp/src/lib.rs:465-511 | names indexed by id, then the spans with parents resolved back |
| `OtlpSpans.SpansThereAndBack` | crates/otlp/src/lib.rs:465-511 | with injective ids every span keeps name, times, scalar attributes and resolvable parent |
| `OtlpSpans.SpansSurviveExactly` | crates/otlp/src/lib.rs:120-157 | the spans survive unchanged exactly when all are named, timed, scalar and resolvable |
| `OtlpSpans.SpanSettlesExactly` | crates/otlp/src/lib.rs:340-349 | a span is stable after one trip exactly when no attribute is an integer of 2^63 or more |
| `OtlpResource.FingerprintSurvives` | crates/otlp/src/lib.rs:85-117 | written as attributes and read back, a fingerprint keeps every field but the extended ones, unsigned 32- and 64-bit counts included although they travel as signed |
| `OtlpResource.IdentitySurvives` | crates/otlp/src/lib.rs:85-117 | an identity keeps every field but its parameters and source |
| `OtlpDocument.ExportAt` | crates/otlp/src/lib.rs:41-46 | the whole document of a run |
| `OtlpMeaning.DocumentShows` | crates/otlp/src/lib.rs:41-46 | the document's only metrics are those, under a resource that names grade and verdict |
| `OtlpDocument.Import` | crates/otlp/src/lib.rs:383-463 | the run of any document, well formed or not |
| `OtlpDocument.ImportOfExport` | crates/otlp/src/lib.rs:383-463 | importing an export gives the tripped spans and series, fingerprint and identity, the run id if there is a span, and no probes |
| `OtlpDocument.SecondRoundTripExactly` | crates/otlp/src/lib.rs:383-463 | a second export and import of the whole run changes nothing exactly when no span attribute is an integer of 2^63 or more |

## Left out

- Rounding: floating-point numbers are reals. Standard deviation and standard error appear
  squared, so no root is taken, and the coefficient of variation is reported squared
  (`Gate.CovIsRatio` and `Gate.NoisyByRoot` relate it to its root).
- Kernel concurrency: each handler is one atomic step, and per-bucket counters are unbounded.
- SHA-256 is an arbitrary function: `CanonicalJson` concludes up to a collision, `OtlpSpans` and
  `OtlpDocument` ask for distinct span ids.
- JSON parsing and printing: runs, series, spans and OTLP messages are records whose absent or
  wrongly typed fields are `None`; non-numeric entries of numeric arrays are not represented.
  Canonical JSON covers null, booleans, integers, strings, arrays and objects, not floating-point
  numbers.
- Text: lower-casing and trimming are on ASCII; strings are sequences of code points.
- Reduce.ReduceHistogram: histograms that count something have at most as many buckets as their
  layout describes (64 for log2), because the code would index or shift out of range on others.
- Lifecycle.Run.ExecuteRun: failures of provision, start, reaching steady and reading the spans
  return without cleanup in the code, so no cleanup is claimed there.
- Attribution.StepKeeps: control lines arrive whole and from one client; the owner's read timeout,
  which can drop a partial line, and reconnecting peers are not modelled.
- Session.ControlClient.Command: the socket is a parameter that says what was read or that it failed.
- Block.Probe.HandleComplete and Kvm.Probe.HandleKvmEntry: key layouts and byte encodings of map
  entries are plain values.
- OtlpResource.FingerprintSurvives: the tuning and extended fields, which do not travel, and the
  parameters of an identity are opaque texts.
- OtlpDocument.Import: gate, workload report and the outcome beyond its verdict, which an import
  leaves empty.
- Assembly.Grade: whether the tuning took effect and the extended fields are present are given.
- The drift mode of the gate beyond its linear fit.
- The net and resident gadgets, host preparation, shell templates, command-line parsing and exit codes.
- The quality of SplitMix64 as a source of randomness; its constants stand as in the code.
- JsonReader.TextReadBack: the reader knows neither white space nor fractions, exponents and surrogate
  pairs, none of which occur in the modelled texts.
