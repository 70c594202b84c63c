# Verified model of the gRPC load sender and its companions

A Dafny model, with proofs, of the four parts of the repository that have real
logic in them.

**The arrival scheduler** (`scheduler.go`). `Merge` defines the sources (Poisson
streams, burst onsets, the spikes of each burst), a reference result ("every
arrival of every source before the deadline, sorted") and a machine that merges
the sources one event at a time. `MergeInvariant`, `MergeTheorems` and
`BurstTheorems` prove what every run of that machine does. `Schedule` defines the
sources a configuration and its random draws give, and `ScheduleTheorems` carries
the results over to configurations. `ScheduleContents` says what a drained schedule
holds in terms of the draws alone: when every arrival is, and how often each time
occurs. `PendingPeak` says how long the buffer of
pending spikes gets, and `QuietReturns` when a call that returns nothing has
changed nothing. `PoissonHeap` is the binary heap over an
array; `Scheduler` (module `SchedulerObject`) is the object with its mutable
fields, and every one of its methods is tied to a step of the machine. `Latches`
is the accounting of the counters when the reporter drains them while the
producer fires.

**The protobuf float extractor** (`cmd/grpc-parity-check/proto_compare.go`).
`Wire` is the format as functions on byte sequences, following the sections "Base
128 Varints" and "Message Structure" of the Protocol Buffers Encoding
specification and section 3.4 of IEEE 754-2019; `WireProofs` has the round trips,
`FloatValues` what each word is worth, and `WireBytes` which bytes are a field and
which floats bytes hold. `ParityCheck` has the loops over bytes, proved against
`Wire`, and the comparison.

**Replay files, samplers, dispatch** (`main.go`,
`cmd/grpc-parity-check/main.go`). `Replay` and `ReplayReaders` are the two readers
of the replay format. `Reservoir` counts the outcomes of Algorithm R over all
draw vectors and `Samplers` has the two objects that run it. `Pipeline`,
`PipelineInvariant` and `PipelineTheorems` are the producer, queue, workers and
reporter as interleaved atomic steps, `ErrorLog` the bounded error map, and
`DrainBarrier` the semaphore-bounded request loop of the parity checker.
`DrainAnswers` says what its tallies and its exit verdict are in terms of the
replies.

**Window histograms** (`metrics.go`, `cmd/grpc-gap-target/main.go`). `Histogram`
is the counting specification, `Analyzers` the two programs for it.

`Sorting`, `Ranks`, `Counting` and `Arithmetic` hold what the others share.

## How the source is modelled

- Times are unbounded integers, in nanoseconds. Rates, floats and differences
  are exact: `real`, or `int` where only their order matters (latencies are whole
  microseconds in the source). Varints and lengths keep their 64-bit width, with
  overflow dropped where the source drops it.
- The random generator is a value of `Schedule.Draws`: each gap and each offset
  has an address and is consulted at most once in a run, so every run of a shared
  generator is a run for some `Draws`. Gaps are nonnegative, as
  `poissonIntervalFloat` promises; a random offset is the window times a number from
  0 up to but not including 1, so it ends at the window's last nanosecond.
- `PoissonHeap.Stream` also records which replica it is and how often it has
  emitted. The source's record has only its rate and time; the two numbers are
  what the draws are addressed by.
- `Next` has one loop with a switch; here its parts are the methods `Due`,
  `Take`, `TakeNext` and `Loop`. The two walks over a message share `ReadField`
  and `ReadValue`, which the source repeats in each. `Summary` and
  `analyzeWindows` are likewise cut at their loops.
- A failure of `analyzeWindows` at run time is a result, `Failure`.
- A file is the sequence of its bytes.

## What was found

- Under the random and uniform shapes the buffer of pending spikes never needs
  `window/period + 2` bursts. Spikes lie before the end of their window, so the bound
  is `max(1, ceil((window-1)/period))` bursts (`ScheduleTheorems.PendingBound`), and
  under the random shape it is attained (`PendingBoundAttained`). The comment at
  `scheduler.go:222-224` allows for more.
- Under the uniform and spike shapes with fixed jitter the longest the buffer gets is
  one burst and, of each burst before it, the spikes still to come at its onset
  (`PendingPeak.PeakBound`, `PeakIsReached`). Spike shape does not look at the window,
  so there the reserve can be too small: it suffices exactly if it covers that peak
  (`ReserveSufficesIff`), and bursts of four spikes every nanosecond outgrow it
  (`SpikesOutgrowReserve`). The source then grows the slice, so nothing is lost.
- One call of `Next` can spawn bursts for ever in exactly one kind of
  configuration: random shape, Poisson jitter, a window of more than a nanosecond
  and a first onset before the deadline (`ScheduleTheorems.NextReturnsIff`). The
  draws that do it have zero gaps, which the conversion to whole nanoseconds
  permits. In a window of one nanosecond every offset is 0 and a call spawns at
  most one burst.
- A call of `Next` that returns false can have spawned bursts first, all of whose
  spikes are past the deadline. It needs the random shape, a window of more than a
  nanosecond, a first onset before the deadline and, under fixed jitter, a window
  that reaches from the last onset to the deadline; in all other configurations a
  false return changes nothing (`QuietReturns.FalseIsQuietIff`).
- One drain of the per-interval counters is three swaps. The reports show more
  spikes than their bursts bring only if bursts were latched between the first and
  second swap, and by no more than those (`Latches.SkewBound`, `InStepIff`).
- The reporter returns when it is told to stop without a last drain
  (`main.go:873-874`). What goes unreported of a counter is what was latched after
  that counter's last swap, so its reports add up to the cumulative counter exactly
  if nothing was (`Latches.Unreported`).
- The pipeline would count an error with an empty text as an error, leave it out of
  the error map and time it as a success; the number of timed successes equals the
  number of successes exactly if there was none
  (`PipelineTheorems.ErrorsAtTheEnd`). This is a hypothetical input: errors of a
  gRPC call render as "rpc error: code = ...", so `conn.Invoke` never yields an
  empty text.

## Model

| member | source | states |
|---|---|---|
| PoissonHeap.RootIsMinimum | scheduler.go:154-163 | in a heap by `Less` no stream is earlier than the one at index 0 |
| PoissonHeap.StreamHeap.Less | scheduler.go:163 | compares the next arrival times |
| PoissonHeap.StreamHeap.Swap | scheduler.go:165 | exchanges two elements and nothing else |
| PoissonHeap.StreamHeap.Append | scheduler.go:167-169 | appends one stream |
| PoissonHeap.StreamHeap.RemoveLast | scheduler.go:171-177 | drops and returns the last stream |
| PoissonHeap.StreamHeap.Down | scheduler.go:217 | sift-down restores the heap order from its start index on and only rearranges the prefix |
| PoissonHeap.StreamHeap.Up | scheduler.go:274 | sift-up restores the heap order and only rearranges |
| PoissonHeap.StreamHeap.Init | scheduler.go:217 | any streams become a heap of the same streams |
| PoissonHeap.StreamHeap.Push | scheduler.go:274 | a heap of the old streams and the new one |
| PoissonHeap.StreamHeap.Pop | scheduler.go:272 | returns the root; the rest is a heap of all others |
| MergeTheorems.TagHits | scheduler.go:16-21 | in a list of times marked with a kind an arrival occurs as often as its time does in the list, and not at all under the other kind |
| MergeInvariant.StepInv | scheduler.go:250-280 | every event of the merge keeps order, buffer order and the count of every arrival |
| MergeInvariant.RunInv | scheduler.go:250-280 | the invariant in every reachable state |
| MergeTheorems.OrderedEmission | scheduler.go:250-280 | emissions never go back in time, are before the deadline, and base precedes spike at equal times |
| MergeTheorems.StuckIffExhausted | scheduler.go:254-260 | nothing can be taken exactly when nothing is left before the deadline |
| MergeTheorems.MergeIsSort | scheduler.go:250-351 | an exhausted run has emitted exactly the sorted reference: nothing lost, duplicated or invented |
| MergeTheorems.OnsetLosesTies | scheduler.go:303-311 | a burst is spawned only after every base arrival, and every spike of an earlier burst, that is not later than its onset |
| MergeTheorems.SpikeConservation | scheduler.go:262-277 | bursts spawned times size is spikes emitted plus spikes pending, in every reachable state |
| MergeTheorems.RunTallied | scheduler.go:262-277 | the counters are the numbers of arrivals of each source, and only sources before the deadline were used |
| MergeTheorems.RunIsBounded | scheduler.go:250-280 | a run is no longer than its sources reach the deadline in |
| MergeTheorems.DrainsIffCovered | scheduler.go:250-280 | some run drains the schedule if and only if every source reaches the deadline |
| BurstTheorems.MaxOverlap | scheduler.go:222-224 | the least number of periods, at least one, that cover how far spikes reach |
| BurstTheorems.MaxOverlapBound | scheduler.go:222-226 | it is at least one burst less than the source reserves room for |
| BurstTheorems.BufferBound | scheduler.go:318-345 | with periodic onsets the buffer holds at most `MaxOverlap` bursts, in every reachable state |
| BurstTheorems.SpikeIsNext | scheduler.go:261-269 | after spawning a burst with a spike at its onset, that spike is next |
| BurstTheorems.PromptSpawnsOnce | scheduler.go:250-264 | with such bursts a call spawns at most one |
| BurstTheorems.PeriodicSpawns | scheduler.go:250-264 | with periodic onsets a call spawns at most `MaxOverlap` bursts |
| BurstTheorems.HorizonLimits | scheduler.go:258-264 | a call cannot spawn beyond the first onset at the deadline |
| BurstTheorems.BurstsInOrder | scheduler.go:261-269 | separate bursts come out one after the other |
| BurstTheorems.SeparateLogAt | scheduler.go:261-269 | emission k of such a run is spike `k mod n` of burst `k / n` |
| ScheduleTheorems.SpikePlaces | scheduler.go:322-339 | spike i of a uniform burst is `window*i/size` after the onset, of a spike burst i microseconds |
| ScheduleTheorems.RandomPlaces | scheduler.go:328-333 | the spikes of a random burst are the onset plus the drawn offsets, sorted |
| ScheduleTheorems.SpikesSorted | scheduler.go:322-340 | each shape gives its spikes in time order |
| ScheduleTheorems.SourcesAreTimely | scheduler.go:208-221 | every configuration and all draws give sources in time order with spikes from the onset on |
| ScheduleTheorems.ScheduleIsSort | scheduler.go:250-351 | the merge result for every configuration and all draws |
| ScheduleContents.ArrivalAt | scheduler.go:211-216 | arrival k of replica i is the start plus that replica's own gaps 0 to k |
| ScheduleContents.PoissonOnset | scheduler.go:356-368 | under Poisson jitter onset b is the start, the period and the first b drawn gaps |
| ScheduleContents.RawSpikeAt | scheduler.go:322-339 | spike i of burst b is its onset plus `window*i/size`, i microseconds or the drawn offset, by shape |
| ScheduleContents.ContentsOfDrain | scheduler.go:250-351 | a drained schedule has each time before the deadline as often as replicas' gaps, or onsets and offsets, come to it, and no other |
| ScheduleContents.StreamsMean | scheduler.go:192-210 | as many streams as replicas, at least one, if the target exceeds what the bursts absorb, and otherwise none |
| ScheduleTheorems.FixedOnset | scheduler.go:219-221 | onset b is `start + (1 + b) * Period` under fixed jitter |
| ScheduleTheorems.FixedJitterCovers | scheduler.go:356-368 | with fixed jitter and gaps of at least a nanosecond every source reaches the deadline, so the drain is finite |
| ScheduleTheorems.SpikesWithinWindow | scheduler.go:328-339 | random and uniform spikes lie before the end of the window, at the latest in its last nanosecond |
| ScheduleTheorems.PendingBound | scheduler.go:222-226 | in every reachable state of a fixed-jitter configuration that is not of spike shape the buffer holds at most `Overlap` bursts, which is within what the source reserves |
| ScheduleTheorems.PendingBoundAttained | scheduler.go:222-226 | in every random-shape configuration with room before the deadline some draws make one call fill the buffer to that bound, and spawn that many bursts |
| PendingPeak.PendingAfterSpawn | scheduler.go:318-345 | for any sources, right after a spawn the buffer holds as many spikes as the new burst has and the earlier ones have after its onset |
| PendingPeak.PendingWithinOpen | scheduler.go:261-270 | in every reachable state the buffer is no longer than it was after the last spawn |
| PendingPeak.OpenIsReached | scheduler.go:261-265 | every run that spawned a burst had the buffer that full at some moment |
| PendingPeak.PeakBound | scheduler.go:222-226 | under fixed jitter with uniform or spike shape the buffer never holds more than a burst and, of each of the others there is room for, the spikes after so many periods |
| PendingPeak.PeakIsReached | scheduler.go:222-226 | every run that drains such a schedule holds exactly that many at some moment, whatever is drawn |
| PendingPeak.ReserveSufficesIff | scheduler.go:222-226 | a run that drains such a schedule stays within what the source reserves exactly if the peak of its configuration does |
| PendingPeak.SpikesOutgrowReserve | scheduler.go:222-226 | a spike-shape configuration that holds 13 pending spikes where 12 are reserved |
| ScheduleTheorems.BurstsAtExhaustion | scheduler.go:219-221 | exactly `(D - 1) / Period` bursts at exhaustion |
| ScheduleTheorems.ClosedForm | scheduler.go:334-339 | the time of the k-th emission in closed form |
| ScheduleTheorems.SpawnLimit | scheduler.go:250-264 | outside the stalling configurations one call spawns at most one burst, or `Overlap` bursts under the random shape with fixed jitter and a window over a nanosecond |
| ScheduleTheorems.StallsForever | scheduler.go:356-368 | draws for which a call spawns any number of bursts |
| ScheduleTheorems.NextReturnsIff | scheduler.go:250-264 | `Next` returns for all draws exactly outside the stalling configurations |
| QuietReturns.NotQuiet | scheduler.go:254-265 | if the last burst before the deadline has all its spikes from the deadline on, some call spawns it and returns false |
| QuietReturns.QuietOutside | scheduler.go:254-265 | in all other configurations, whatever is drawn, no call that returns false has spawned anything |
| QuietReturns.FalseIsQuietIff | scheduler.go:254-265 | a false return changes nothing, for all draws, exactly outside the configurations named by `MaySpawnInVain` |
| SchedulerObject.RootIsEarliest | scheduler.go:297-299 | the heap's root is the earliest next arrival of all streams |
| SchedulerObject.BuildStreams | scheduler.go:208-218 | the initial heap has one record per replica, due at the start plus that replica's own first gap |
| SchedulerObject.Scheduler.constructor | scheduler.go:188-229 | the new object is the machine's initial state for its configuration |
| SchedulerObject.Scheduler.PeekEarliest | scheduler.go:292-313 | the earliest of the three, ties to base, then spike, then onset |
| SchedulerObject.Scheduler.FreshSpikes | scheduler.go:318-340 | the loops of each shape compute the burst's spikes |
| SchedulerObject.Scheduler.SpawnBurst | scheduler.go:318-351 | merges the burst into the buffer, counts it and reports it |
| SchedulerObject.Scheduler.AdvanceBurstOnset | scheduler.go:356-368 | moves to the next onset |
| SchedulerObject.Scheduler.CycleRoot | scheduler.go:272-274 | pop, advance and push change the popped stream's time and nothing else |
| SchedulerObject.Scheduler.TakeOnset | scheduler.go:262-265 | the onset branch is the machine's spawn, and latches it |
| SchedulerObject.Scheduler.CountSpike | scheduler.go:268-269 | both counters of spikes go up by one |
| SchedulerObject.Scheduler.TakeSpike | scheduler.go:266-270 | the spike branch is the machine's spike, fired and latched once |
| SchedulerObject.Scheduler.TakeStream | scheduler.go:271-277 | the stream branch emits the root's arrival and no other, fired and latched once |
| SchedulerObject.Scheduler.Due | scheduler.go:253-259 | what is due is what the machine allows, nothing exactly at exhaustion |
| SchedulerObject.Scheduler.Next | scheduler.go:250-280 | returns the next emission or, exactly when nothing is left, false, having at most spawned bursts in a row; spawns at most `limit` bursts; outside the random shape a spawned burst's first spike is returned at once and a false return changes nothing; nothing is drained, so each latch grows by what fired; an exhausted schedule stays unchanged |
| SchedulerObject.Drain | main.go:935-939 | calling `Next` until false ends and yields the sorted reference, in which every time occurs as often as the configuration and the draws make it |
| SchedulerObject.Scheduler.SnapshotCounters | scheduler.go:371-377 | the cumulative counters are the machine's tallies, spikes conserved |
| SchedulerObject.Scheduler.DrainCounters | scheduler.go:382-388 | returns exactly what fired since the previous drain, and all drains together all that fired |
| Latches.Accounting | scheduler.go:266-276 | drained plus latched is the cumulative counter, short of one exactly between the two adds |
| Latches.Stretch | scheduler.go:382-388 | over any stretch of a run drains and latch grow by what was latched: nothing lost or counted twice |
| Latches.Unreported | main.go:873-874 | when the producer has stopped, reports and what was latched after the last swap of a counter add up to the cumulative counter; so the reports alone do exactly if nothing was |
| Latches.LastDrain | scheduler.go:379-388 | one more drain, which the program does not make, would leave nothing unreported |
| Latches.SpikesWithinBursts | scheduler.go:346-347 | in every reachable state the drained spikes are within what the bursts drained or latched bring |
| Latches.BroughtMeans | scheduler.go:318-319 | bursts bring `Size` spikes each |
| Latches.SkewBound | scheduler.go:382-388 | after any drain the reported spikes exceed what the reported bursts bring by at most the bursts latched between its first and second swap |
| Latches.ReportCanSkew | scheduler.go:382-388 | for every size and k a run whose only report shows `size * k` spikes and none of their k bursts: the bound is attained |
| Latches.InStepIff | scheduler.go:382-388 | reports are in step with bursts after every drain with k bursts latched between its first two swaps, exactly if k is 0 |
| WireProofs.GroupShift | cmd/grpc-parity-check/proto_compare.go:135 | the or-and-shift step adds the next group modulo 2^64 |
| WireProofs.VarintLenMeaning | cmd/grpc-parity-check/proto_compare.go:129-141 | a varint is found exactly when the data starts with one of at most ten bytes |
| WireProofs.VarintRoundTrip | cmd/grpc-parity-check/proto_compare_test.go:11-24 | every 64-bit value decodes from its encoding, whatever follows |
| WireProofs.FieldRoundTrip | cmd/grpc-parity-check/proto_compare_test.go:26-48 | every encoded field is read back, whatever follows |
| WireProofs.MessageRoundTrip | cmd/grpc-parity-check/proto_compare.go:11-70 | an encoded message parses to exactly its fields |
| WireProofs.NestedMessage | cmd/grpc-parity-check/proto_compare.go:39-54 | a submessage contributes its direct floats, one level down and no deeper |
| WireProofs.ExtractOfMessage | cmd/grpc-parity-check/proto_compare.go:11-70 | extracting from the encoding of a message gives the kept floats of its fields and submessages in field order, exactly one level down |
| WireProofs.ExtractConcat | cmd/grpc-parity-check/proto_compare.go:11-70 | after a part that parses fully extraction starts afresh |
| WireProofs.ShallowIsSubsequence | cmd/grpc-parity-check/proto_compare.go:74-127 | the shallow floats are a subsequence of the top-level ones |
| WireProofs.ExtractCost | cmd/grpc-parity-check/proto_compare.go:11-70 | five bytes at least for each float, nested ones included |
| WireProofs.Base128Snoc | cmd/grpc-parity-check/proto_compare.go:131-140 | the group at position i of a varint weighs 128^i |
| WireBytes.LittleEight | cmd/grpc-parity-check/proto_compare.go:33 | the weight of each of eight bytes of a word |
| WireBytes.ParsesExactly | cmd/grpc-parity-check/proto_compare.go:14-67 | a field is read exactly if the data starts with its tag as a varint and the bytes of its wire type, spelled out |
| WireBytes.SingleOfBytes | cmd/grpc-parity-check/proto_compare.go:55-64 | the float of a tag and four given bytes |
| WireBytes.DoubleOfBytes | cmd/grpc-parity-check/proto_compare.go:29-38 | the float of a tag and eight given bytes |
| WireBytes.SubmessageOfBytes | cmd/grpc-parity-check/proto_compare.go:39-54 | length-delimited bytes are read as a message at the top and skipped one level down |
| WireBytes.MinusOne | cmd/grpc-parity-check/proto_compare.go:55-64 | the five bytes of -1.0 in field 1 give -1.0 |
| FloatValues.HasValue | cmd/grpc-parity-check/proto_compare.go:34-35 | a word has a value exactly if its exponent is not all ones |
| FloatValues.SignNegates | cmd/grpc-parity-check/proto_compare.go:34 | setting the sign bit negates the value |
| FloatValues.Increasing | cmd/grpc-parity-check/proto_compare.go:34 | values of sign 0 increase strictly with the word |
| FloatValues.Linear | cmd/grpc-parity-check/proto_compare.go:34 | up to the second binade words are multiples of the smallest |
| FloatValues.Doubles | cmd/grpc-parity-check/proto_compare.go:34 | from there on one more in the exponent doubles the value |
| FloatValues.IntegerWord | cmd/grpc-parity-check/proto_compare.go:34 | the word of an integer with binary exponent j |
| FloatValues.IntegersOfWords | cmd/grpc-parity-check/proto_compare.go:34-60 | every integer up to 2^24 has a word of single precision and every one up to 2^53 of double precision |
| FloatValues.KeptSingles | cmd/grpc-parity-check/proto_compare.go:59-63 | singles are kept, with their values, exactly up to the last word below 1e15, of either sign |
| FloatValues.KeptDoubles | cmd/grpc-parity-check/proto_compare.go:33-37 | doubles are kept, with their values, exactly below the word of 1e15, of either sign |
| ParityCheck.DecodeVarint | cmd/grpc-parity-check/proto_compare.go:129-141 | the base-128 value modulo 2^64 of the varint the data starts with, (0, 0) exactly if there is none |
| ParityCheck.EncodeVarint | cmd/grpc-parity-check/proto_compare_test.go:11-24 | the loop's output decodes to its input |
| ParityCheck.ReadField | cmd/grpc-parity-check/proto_compare.go:14-20 | reads one field within bounds and moves on, or stops exactly where the format does |
| ParityCheck.ReadValue | cmd/grpc-parity-check/proto_compare.go:22-67 | the value of each wire type, with lengths near 2^64 refused |
| ParityCheck.ExtractShallowFloats | cmd/grpc-parity-check/proto_compare.go:74-127 | the kept direct floats of the fields, in order |
| ParityCheck.ExtractTopLevelFloats | cmd/grpc-parity-check/proto_compare.go:11-70 | those and the kept floats one level down, in field order |
| ParityCheck.CompareProtoFloats | cmd/grpc-parity-check/proto_compare.go:148-187 | all four results in terms of the differences of the two lists of floats: the match, the largest difference, the shorter length, and how many are further apart than the tolerance plus the length gap, 1 if that is 0 without a match to make |
| ParityCheck.JudgeIsVerdict | cmd/grpc-parity-check/proto_compare.go:152-187 | the verdict is right about the differences of the two lists, said with subtraction alone |
| ParityCheck.VerdictIsUnique | cmd/grpc-parity-check/proto_compare.go:148-187 | only one verdict is right |
| ParityCheck.VerdictMeaning | cmd/grpc-parity-check/proto_compare.go:152-187 | a match is also exactly a mismatch count of zero, whether or not the lengths agree |
| ParityCheck.VerdictSymmetric | cmd/grpc-parity-check/proto_compare.go:148-187 | all four results are symmetric in the two messages |
| ParityCheck.VerdictMonotone | cmd/grpc-parity-check/proto_compare.go:148-187 | raising the tolerance keeps a match |
| Replay.AcceptsExactly | main.go:193-248 | either loop accepts exactly the serialisations of lists within its bounds and returns the list |
| Replay.ParityRoundTrip | cmd/grpc-parity-check/main.go:89-141 | the parity loader accepts exactly the serialisations of nonempty lists in bounds |
| Replay.SenderRoundTrip | main.go:193-248 | the sender gets every list in bounds back without its empty payloads |
| Replay.ReadersAgree | cmd/grpc-parity-check/main.go:89-141 | when exactly the parity loader accepts what the sender's loop accepts, and what the sender then returns |
| Replay.PrefixOfSerialised | main.go:203-241 | one file can only be a prefix of another if its list is |
| Replay.CutIsError | main.go:203-241 | a valid file cut anywhere but after a record is an error to both |
| Replay.RecordLayout | main.go:203-241 | a record is two lengths of four bytes, most significant first, each before its bytes |
| Replay.ErrorMeans | main.go:203-241 | which error is reported of a record, for each reader, in terms of its bytes and the total so far |
| ReplayReaders.ReadParityRecord | cmd/grpc-parity-check/main.go:105-136 | one round of the loop, with its checks in its order |
| ReplayReaders.ReadSenderRecord | main.go:203-241 | one round of the loop, with its checks in its order |
| ReplayReaders.LoadParity | cmd/grpc-parity-check/main.go:89-141 | the loop returns the records or the first error |
| ReplayReaders.LoadSender | main.go:193-248 | the loop returns the sendable records, counts those it skips, or returns the first error |
| ReplayReaders.NonEmptyMeaning | main.go:235-240 | the sendable records are those with a payload, all of them and in order |
| Reservoir.KeptDistinct | main.go:130-136 | the reservoir always holds distinct stream positions |
| Reservoir.EveryPositionEquallyLikely | main.go:104-137 | of all draw vectors exactly the fraction k/n keeps any given position |
| Reservoir.EverySubsetEquallyLikely | main.go:104-137 | every k-subset is left by the same number of draw vectors |
| Samplers.LatencyStats.constructor | main.go:117-119 | an empty sampler |
| Samplers.LatencyStats.Add | main.go:121-137 | count, sum and extremes stay exact and the reservoir is Algorithm R's on the stream and the draws |
| Samplers.LatencyStats.Summary | main.go:142-159 | exact count, mean and extremes; each percentile has its rank in the reservoir; zeros without samples |
| Samplers.SummaryIsOrdered | main.go:139-159 | lo <= p50 <= p90 <= p99 <= hi, the sum lies between n * lo and n * hi, and percentiles are those of the whole stream while it fits |
| Ranks.SortRanks | main.go:149-157 | the value at an index of the sorted samples has that rank among the samples |
| Ranks.RankedIsUnique | main.go:149-157 | only one value has a given rank, so the rank of a percentile says which value it is |
| Samplers.DiffSampler.Add | cmd/grpc-parity-check/main.go:67-82 | count and extremes stay exact and the reservoir is Algorithm R's on the stream and the draws |
| Samplers.SamplersAgree | cmd/grpc-parity-check/main.go:51-82 | the two samplers keep the same reservoir of the same stream under the same draws |
| Samplers.ReservoirIsDistinct | main.go:104-137 | the slots hold values of min(n, cap) distinct positions, as the run's draw vector leaves them |
| ErrorLog.Shortened | main.go:900-903 | the first 120 characters, or all if there are fewer |
| ErrorLog.AllFiled | main.go:911-916 | map and spill together hold every error filed |
| ErrorLog.BoundedTexts | main.go:53-56 | at most 1024 texts, and a spill only then |
| ErrorLog.ExactCounts | main.go:911-916 | a text in the map has the count of all its occurrences |
| ErrorLog.SpilledAreOutside | main.go:911-916 | the spill is exactly the errors whose text is not in the map |
| ErrorLog.ErrorTally.File | main.go:911-916 | the update under the mutex files one error |
| PipelineInvariant.StepInv | main.go:881-962 | every atomic step keeps the accounts of jobs, sends, outcomes, seconds and errors |
| PipelineInvariant.RunInv | main.go:776-962 | the accounts in every reachable state |
| PipelineTheorems.JobsConserved | main.go:881-961 | accepted is queued plus held plus finished, the queue is bounded and in order, job k has the payload and method of request `k mod n`, the fallback method if that is empty |
| PipelineTheorems.NeverTwice | main.go:885-931 | no job is finished twice, or held after it was finished |
| PipelineTheorems.AtTheEnd | main.go:947-988 | after close and wait sends are arrivals are outcomes, every job was called once, and the per-second counts add up |
| PipelineTheorems.ReportsBehind | main.go:788-792 | reports never run ahead of the send total, nor totals ahead of the outcome reports |
| PipelineTheorems.ErrorsAtTheEnd | main.go:896-919 | where every error went, and when exactly the timed successes are the successes |
| PipelineTheorems.ArrivalsFetched | main.go:935-939 | base arrivals and spikes are each counted as such |
| PipelineTheorems.RepliesAtTheEnd | main.go:896-919 | at the end the totals are the numbers of calls that succeeded and failed, and a text in the error map has the number of calls that failed with it |
| PipelineTheorems.NoDeadlock | main.go:881-962 | until all have been waited for, somebody can move |
| PipelineTheorems.RunIsShort | main.go:881-962 | at most nine steps for each arrival, one for each worker and two more |
| DrainBarrier.Throttled | cmd/grpc-parity-check/main.go:263-283 | never more than 32 in flight, and the tokens are theirs and main's |
| DrainBarrier.RunInv | cmd/grpc-parity-check/main.go:281-343 | in every interleaving each tally is the number of requests that have added to it |
| DrainBarrier.NoneInFlight | cmd/grpc-parity-check/main.go:360-363 | after 32 tokens no request is in flight |
| DrainBarrier.TalliesWhenRead | cmd/grpc-parity-check/main.go:371-380 | the printed tallies are exact counts of their classes and add up; Float-match is the number of float matches |
| DrainBarrier.TalliesTrail | cmd/grpc-parity-check/main.go:345-353 | even before the drain no tally runs ahead of the one it is part of |
| DrainBarrier.PassedMeans | cmd/grpc-parity-check/main.go:419-430 | the run passes exactly if no reply mismatched and errors are absent or allowed |
| DrainBarrier.NoDeadlock | cmd/grpc-parity-check/main.go:271-363 | a drain that waits, waits for a request that can move |
| DrainBarrier.RunIsShort | cmd/grpc-parity-check/main.go:271-363 | at most seven steps for each request and 34 more, so once main stops launching the drain ends |
| DrainBarrier.MatchMeans | cmd/grpc-parity-check/main.go:319-329 | when a pair of replies without errors is not a mismatch, in terms of bytes and floats |
| DrainBarrier.ClassifySymmetric | cmd/grpc-parity-check/main.go:312-329 | swapping the targets swaps the one-sided errors and nothing else |
| DrainAnswers.ClassMeans | cmd/grpc-parity-check/main.go:312-329 | each class has exactly its condition on the two errors and the two replies |
| DrainAnswers.TalliesOfReplies | cmd/grpc-parity-check/main.go:371-380 | each printed tally is the number of answers of the run whose replies satisfy its condition |
| DrainAnswers.PassedOfReplies | cmd/grpc-parity-check/main.go:419-430 | the run passes exactly if every answer is free of errors or errors are allowed, and without an error is of equal or matching replies |
| DrainAnswers.ParityPasses | cmd/grpc-parity-check/main.go:319-330 | the same with the checker's own comparison: equal bytes, or as many floats, some, each within the tolerance |
| Histogram.CountMeaning | metrics.go:118-125 | bin b counts the events of its interval, the last bin all from its start |
| Histogram.BinsMeaning | metrics.go:108-114 | the last bin starts within the span, and unless there are five million the bins cover it |
| Histogram.CountsOfExtent | metrics.go:106-125 | the number of bins in terms of the first and the last event, and below the clamp each bin counts exactly its own window |
| Histogram.CountsOfPermutation | metrics.go:104 | the order of the events does not matter |
| Histogram.CountsSumToEvents | metrics.go:112-125 | the counts sum to the number of events, clamped or not |
| Histogram.ThresholdBound | metrics.go:162-171 | threshold times bins over it is at most the number of events |
| Histogram.CrossingMeaning | cmd/grpc-gap-target/main.go:146-153 | some bin crosses a threshold exactly if the largest does |
| Histogram.CrossingIsSize | metrics.go:162-171 | the crossings of a threshold are the bins that reach it, each once |
| Histogram.LargestMeaning | metrics.go:128-136 | the maximum is one of the counts and none is above it |
| Histogram.CauchySchwarz | metrics.go:137-142 | bins times the sum of squares is at least the square of the sum |
| Analyzers.VarianceIsNonNegative | metrics.go:139-142 | the clamp of the variance never changes it in exact arithmetic |
| Analyzers.FillBins | metrics.go:118-125 | the loop fills the bins with the events' counts |
| Analyzers.WindowAnalyzer.constructor | metrics.go:39-44 | an empty analyzer |
| Analyzers.WindowAnalyzer.Record | metrics.go:47-55 | keeps the first five million events and counts the rest |
| Analyzers.WindowAnalyzer.Snapshot | metrics.go:65-71 | the captured events in order |
| Analyzers.WindowAnalyzer.Summary | metrics.go:98-194 | the report of the captured events |
| Analyzers.Summarise | metrics.go:100-194 | the same of a given snapshot |
| Analyzers.ReportOfPermutation | metrics.go:103-104 | the report does not depend on the order of the events |
| Analyzers.ReportIsConsistent | metrics.go:106-194 | counts sum to events, p50 <= p90 <= p99 <= max, variance not negative, Fano factor defined, and no threshold over-counted |
| Analyzers.QuantileMeaning | metrics.go:148-160 | each quantile has its rank among the bin counts |
| Analyzers.ReportExtent | metrics.go:106-125 | the report has bins that cover its events, and all the events |
| Analyzers.ReportRate | metrics.go:173-177 | duration in seconds and events over it, 0 for events at one time |
| Analyzers.ReportFigures | metrics.go:137-147 | bins times the mean are the events, bins times the variance the squared distances from the mean, and the Fano factor times the mean the variance |
| Analyzers.ReportHits | metrics.go:162-171 | for each threshold the number of bins that reach it |
| Analyzers.Stats.RecordArrival | cmd/grpc-gap-target/main.go:50-58 | keeps the first five million events and counts the rest |
| Analyzers.Stats.Snapshot | cmd/grpc-gap-target/main.go:60-66 | the captured events in order |
| Analyzers.FillWindows | cmd/grpc-gap-target/main.go:135-145 | the loop fills the bins with the events' counts |
| Analyzers.TargetBins | cmd/grpc-gap-target/main.go:128-134 | the number of windows with Go's truncating division: they cover the span, and are below 1 exactly if the last arrival is a window or more before the first |
| Analyzers.AnalyzeWindows | cmd/grpc-gap-target/main.go:122-155 | of arrivals in any order: fails exactly if the last is a window or more before the first, and otherwise as many windows as cover the span, those over the threshold, the largest |
| Analyzers.FoldedCountsSum | cmd/grpc-gap-target/main.go:136-145 | no arrival is lost, whatever the order |
| Analyzers.FoldedMeaning | cmd/grpc-gap-target/main.go:136-145 | of arrivals in any order window b counts its own interval, the first also all before it and the last all after it |
| Analyzers.FoldedOfSorted | cmd/grpc-gap-target/main.go:122-155 | sorted arrivals never fail and get the counts of the histogram |
| Analyzers.AnalyzeSnapshot | cmd/grpc-gap-target/main.go:157-161 | sorting first makes that hold of arrivals in any order |
| Analyzers.TwoHistograms | metrics.go:98-194 | both programs find the same bins, maximum and threshold crossings of the same events |

## Left out

- ScheduleTheorems.PendingBound: leaves out the spike shape, whose one-microsecond spacing does not depend on the window; `PendingPeak.PeakBound` and `PeakIsReached` give the exact maximum for it and for the uniform shape.
- SchedulerObject.Scheduler.constructor: asks for a ghost `limit` on the bursts one call may spawn, because `Next` does not return for all draws without one; `ScheduleTheorems.SpawnLimit` supplies it everywhere outside the stalling configuration.
- SchedulerObject.Drain: asks that every source reaches the deadline; `MergeTheorems.DrainsIffCovered` says the drain cannot end otherwise.
- Overflow of 64-bit times, of `Window * Size` and of Poisson-jittered gaps; negative sizes, windows and periods, which `Validate` refuses.
- Rounding of floating point: rates, means, variances, differences and quantile indices are exact.
- The exponential distribution, its logarithms, and the tail probabilities and expected quantiles the target prints.
- Independence and distribution of the draws: uniformity of the reservoir is proved by counting draw vectors.
- The capacity that the pending-spike slice is given in advance, and sharing of backing arrays between slices.
- The rate in a stream's record, which only scales its draws.
- Sleeping, scheduling lag, drift, latencies by the second and the in-flight gauge: they depend on the clock.
- The connection a worker picks, contexts and timeouts, and everything else about gRPC, TLS and certificates.
- Console, CSV and JSON output, flag parsing, discovery of installed artefacts and target addresses.
- The percentiles of the parity checker's differences, which repeat those of `Samplers.LatencyStats.Summary`.
- Opening and reading files: errors of the file system are not part of this model.
