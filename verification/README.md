# R-NADS: flow tracking, sharding, anomaly scoring and blocking

A Dafny model of the network anomaly detector's core, with proofs about whole runs rather than single calls.

**Flow tracking.** `FlowTables.FlowTable` is the fixed-capacity LRU cache: a map from flow keys to slab slots, a slab
that never shrinks, and a doubly linked recency list threaded through the slots. Its methods relink nodes step by
step as the source does, in both variants: `reset` of the evicted slot in place (the main program) and overwriting it
with a fresh node (the aggregator crate); the parameter `overwrite` selects one. `FlowStates.FlowState` is the
128-slot ring buffer with rolling aggregates. `CrateFlowTables.CrateFlowTable` is the crate's table with the crate's
own, smaller `CrateFlowStates.CrateFlowState` in each slot. `LruSpec` is the reference: `Step` and `Run` say what a table of a given
capacity holds as a pure recency sequence, and the class is proved to refine them. Everything about recency, eviction,
inclusion between table sizes and per-flow results is then proved about every trace.

**Features.** `Windows.MetricsOf` is the feature vector as a function of a flow's packets since admission, and
`Results` says what each field of each result of a run means for the packets received: endpoints, counts of control
bits, lengths, rates and intervals. The arithmetic is over the reals; 64-bit wrap-around is modelled where it can
happen.

**Pipeline.** `Pipeline` runs producer, router and workers as interleaved steps over bounded FIFO channels, including
shutdown, closed channels and workers that die. A worker's step uses the same `Step` the table class refines. Besides
the order invariants it proves progress: from every reachable state the packets can be worked off, and the system can
shut down.

**Scoring.** `Svdd` is the trainer and classifier of the main program, `ExpandedSvdd` those of the crates, which replace
the squared norm of a projection by 1. Square root and cosine are parameters constrained only by
`sqrt(v)^2 == v`, `sqrt(v) >= 0` for `v >= 0` and `|cos| <= 1`; the number of projections is any positive number.

**Blocking.** `Blocklists` is the lazily expiring list shared by the inference thread and `/check`, compared with the
log of verdicts in every interleaving, with the lookup and the removal of `/check` as one step or as two. The answer
is characterised from the log alone: times, verdicts, checks and TTL changes. `Verdicts` joins it to the pipeline.

## Results that differ from what the code or its comments suggest

- The variance clamp at src/analysis/aggregator.rs:283 is explained there by floating point. Over the reals it never
  acts unless the 64-bit sum of squares has wrapped; `Windows.LengthVarianceExactIff` gives the exact condition under
  which the reported variance is the window's variance, and `Windows.WrappedVarianceIsTooSmall` a window for which it is too
  small. The capture length of 65535 (src/capture/mod.rs:181) is far below the bound.
- `/check` can fail to block an address whose last verdict is anomalous and younger than the TTL, for any positive TTL
  (`Blocklists.SplitCheckLosesVerdict`, `Blocklists.RaisedTtlForgets`). `Blocklists.BlockedIff` gives the exact answer
  in all interleavings and TTL histories. With atomic checks the only loss is to a check that found the verdict
  outdated under the TTL of its time (`Blocklists.AtomicBlockedIff`); while the TTL never grows, the only loss is to a
  removal begun before the verdict and completed after it (`Blocklists.SplitBlockedIff`).
- Flows reported under one address may live in different workers, and then the schedule decides whether the address
  ends up listed (`Verdicts.VerdictsDependOnSchedule`); with one worker for all of them it does not
  (`Verdicts.VerdictsDoNotDependOnSchedule`).
- The address put on the blocklist is the smaller endpoint of the flow, not necessarily the sender
  (`Packets.ReportedAddressIsSenderIff`).
- With fewer configured slots than workers every worker table has capacity 0, the first packet stops its worker and no
  result is ever produced (`Workers.RunWorker`, `Pipeline.UndersizedSystemIsSilent`).
- Training on exactly one sample reaches an index out of bounds (`Svdd.TrainModel`); the crate's trainer does not.

## Model
| member | source | states |
|---|---|---|
| Packets.AddressOrderIsNumeric | src/analysis/aggregator.rs:32-59 | addresses compare by number, V4 before V6 |
| Packets.KeyHoldsEndpoints | src/analysis/aggregator.rs:32-59 | the key holds the packet's two endpoints, each address with its own port, the smaller address first and the smaller port first for equal addresses |
| Packets.SummaryOfEvent | src/analysis/aggregator.rs:177-197 | a summary keeps length, flags (none when absent) and direction, and the time in whole milliseconds, 0 before the epoch |
| Packets.SameFlowIff | src/analysis/aggregator.rs:32-59 | two packets share a flow key iff the protocols agree and the endpoint pairs are equal or swapped |
| Packets.DirectionMeaning | src/analysis/aggregator.rs:428-432 | for two packets of one key, comparing only the source addresses compares the whole source endpoints when the addresses differ, and always gives Forward when they are equal |
| Packets.ReportedAddressIsSenderIff | src/analysis/aggregator.rs:342-345 | the reported address is the sender's iff the receiver's address is not smaller |
| Windows.WindowSlides | src/analysis/aggregator.rs:177-273 | appending to a full window exchanges the leaving packet's contribution to all eleven aggregates for the new one's |
| Windows.TallyCounts | src/analysis/aggregator.rs:236-264 | the aggregates count packets and bytes by direction and packets with the bits 0x01, 0x02, 0x04, 0x08 and 0x10 |
| Windows.SumsFit | src/analysis/aggregator.rs:200-237 | no byte sum leaves 64 bits for any 32-bit lengths, and no sum of squares does for lengths up to 379625062 |
| Windows.SquareBoundIsTight | src/analysis/aggregator.rs:235-237 | one byte more and a full window of such packets overflows |
| Windows.LengthVarianceExactIff | src/analysis/aggregator.rs:278-283 | reported variance is the pairwise-difference variance iff the squares fit in 64 bits or all lengths agree, never more than it, and that variance is zero iff all lengths agree |
| Windows.WrappedVarianceIsTooSmall | src/analysis/aggregator.rs:278-283 | a window of 127 packets of the greatest length and an empty one is reported with too small a variance |
| Moments.PairIdentity | src/analysis/aggregator.rs:278-283 | n * sum of squares - square of the sum is the sum of squared differences over all pairs |
| Windows.IntervalsMeasureTheSpan | src/analysis/aggregator.rs:286-339 | for any arrival order the gaps are non-negative, sum to newest minus oldest, and their mean is that span over their number |
| Windows.IntervalVarianceIsExact | src/analysis/aggregator.rs:333-336 | the interval variance is the population variance of the gaps: its clamp never acts |
| Windows.ByteRateIsMeanTimesRate | src/analysis/aggregator.rs:279-307 | bytes per second computed from directional sums equals mean length times packets per second |
| Windows.FlagRatiosAreFractions | src/analysis/aggregator.rs:309-314 | all five flag ratios lie in [0, 1] |
| FlowStates.Discount | src/analysis/aggregator.rs:200-233 | taking out the leaving packet yields the aggregates of the rest; no subtraction underflows |
| FlowStates.Admit | src/analysis/aggregator.rs:236-264 | adding a packet yields the aggregates of the grown window; no counter overflows |
| FlowStates.ScanCoversWindow | src/analysis/aggregator.rs:286-296 | slots 0..count hold the same packets as the modular ring positions |
| FlowStates.RingOrder | src/analysis/aggregator.rs:316-320 | reading count slots from (head + 128 - count) % 128 on gives the window oldest first |
| FlowStates.ScanTimestamps | src/analysis/aggregator.rs:286-296 | the scan returns the least and the greatest timestamp of the scanned slots |
| FlowStates.CollectTimestamps | src/analysis/aggregator.rs:316-321 | the copied timestamps are those of the last min(128, n) packets in order |
| FlowStates.WindowSeconds | src/analysis/aggregator.rs:286-304 | the scan's duration is that of the sorted window, 1 ms when it is empty |
| FlowStates.IntervalStatistics | src/analysis/aggregator.rs:316-339 | mean and variance of the sorted gaps of the window |
| FlowStates.FlowState.constructor | src/analysis/aggregator.rs:134-153 | a new state has an empty history and consistent aggregates |
| FlowStates.FlowState.Reset | src/analysis/aggregator.rs:156-173 | a reset state is a new one although the buffer keeps its packets |
| FlowStates.FlowState.Update | src/analysis/aggregator.rs:177-273 | the history grows by the packet, and every aggregate equals its fold over the last min(128, n) packets |
| FlowStates.FlowState.ComputeMetrics | src/analysis/aggregator.rs:277-362 | the result is a function of the key and the history alone |
| LruSpec.StepKeepsWellFormed | src/analysis/aggregator.rs:420-494 | at most capacity flows, distinct keys, distinct slots below the number of flows, kept by every packet |
| LruSpec.RunIsMostRecentFirst | src/analysis/aggregator.rs:420-557 | the resident flows are the most recently seen ones in order of last arrival, and none is missing unless the table is full |
| LruSpec.ResidentCount | src/analysis/aggregator.rs:420-494 | min(c, d) flows are resident after d distinct ones |
| LruSpec.ResidentIffFewFlowsSince | src/analysis/aggregator.rs:420-494 | a flow is resident iff it was seen and fewer than c other flows were seen since |
| LruSpec.ResidentSinceAdmission | src/analysis/aggregator.rs:423-469 | a resident flow has been resident ever since its admission packet, and not just before it |
| LruSpec.HistorySinceAdmission | src/analysis/aggregator.rs:428-469 | its initiator sent that packet and its history is exactly the flow's packets from that one on |
| LruSpec.ForwardIffFromInitiator | src/analysis/aggregator.rs:428-464 | in a resident flow between different addresses a packet of its history is Forward iff its source endpoint is that of the packet that admitted the flow |
| LruSpec.EqualAddressesNeverBackward | src/analysis/aggregator.rs:428-464 | a resident flow between equal addresses has no backward packet in its window, and its direction ratio is the window's size |
| LruSpec.EveryResult | src/analysis/aggregator.rs:277-494 | every result of a run is the metrics of the flow's packets since its current admission, whatever else was seen, evicted or recycled |
| Results.ResultEndpoints | src/analysis/aggregator.rs:341-347 | source and destination of each result are the two endpoints of its packet, the smaller address first, and the packet count is that of the flow since admission modulo 2^64 |
| Results.ResultCounts | src/analysis/aggregator.rs:308-314 | each flag ratio of each result times the window's size is the number of its packets with that bit, and the direction ratio compares packets from the opening address with all others |
| Results.ResultLengths | src/analysis/aggregator.rs:278-283 | mean and variance of each result are those of the lengths of the last 128 packets of the flow since admission, the variance less what the squares lose modulo 2^64 and never negative |
| Results.ResultRates | src/analysis/aggregator.rs:286-306 | packet and byte rate of each result times its span in milliseconds are 1000 times packets and bytes, with 1 ms for an empty span |
| Results.ResultIntervals | src/analysis/aggregator.rs:316-339 | interval features are 0 for one packet; otherwise mean times number of gaps is the span, and the variance is that of the sorted gaps |
| LruSpec.LargerTableIncludesSmaller | src/analysis/aggregator.rs:420-494 | for c1 <= c2 the smaller table's recency list is a prefix of the larger one's, and each history, directions aside, a suffix |
| LruSpec.WindowsAreIncluded | src/analysis/aggregator.rs:420-494 | the same for the 128-packet windows |
| LruSpec.ResultsAsIfAlone | src/analysis/aggregator.rs:420-494 | while the distinct flows fit, a flow's results are those of a table that sees only that flow |
| FlowTables.WalkVisitsOrder | src/analysis/aggregator.rs:524-557 | following next from any position, or prev backwards, visits the listed slots one by one and stops at the end |
| FlowTables.FlowTable.constructor | src/analysis/aggregator.rs:407-415 | a new table is consistent and empty |
| FlowTables.FlowTable.LinkLruHead | src/analysis/aggregator.rs:524-536 | a slot outside the list becomes its head; the links form one acyclic list and keys and states stay |
| FlowTables.FlowTable.UnlinkLru | src/analysis/aggregator.rs:539-557 | exactly that slot leaves the list, in any position |
| FlowTables.FlowTable.PromoteLru | src/analysis/aggregator.rs:507-513 | the slot moves to the front, the others keep their order |
| FlowTables.FlowTable.EvictNode | src/analysis/aggregator.rs:516-521 | the slot's key leaves the map, the slot leaves the list, the slab keeps its nodes |
| FlowTables.FlowTable.ResetSlot | src/analysis/aggregator.rs:452-457 | the reused slot holds the new flow with an empty history, no other slot changes |
| FlowTables.FlowTable.OverwriteSlot | crates/r-nads-aggregator/src/lib.rs:265-283 | the same for a slot overwritten with a fresh node |
| FlowTables.FlowTable.AppendSlot | src/analysis/aggregator.rs:446-448 | the vacant slot is the next one after the slab's last |
| FlowTables.FlowTable.UpdateResident | src/analysis/aggregator.rs:423-436 | a hit performs the reference step |
| FlowTables.FlowTable.RecycleFlow | src/analysis/aggregator.rs:439-469 | a miss in a full table performs the reference step, in both variants |
| FlowTables.FlowTable.InsertFlow | src/analysis/aggregator.rs:470-492 | a miss in a table with room performs the reference step |
| FlowTables.FlowTable.ProcessPacket | src/analysis/aggregator.rs:420-494 | map, slab and list stay consistent, the recency sequence takes the reference step, the result is the metrics of the flow at its front, and the panic happens iff the capacity is 0 |
| FlowTables.IndexFinds | src/analysis/aggregator.rs:423-448 | a key is in the map iff its flow is listed, and then its slot is where the list has it |
| FlowTables.HeldAfterStep | crates/r-nads-aggregator/src/lib.rs:239-283 | the packet's slot is the known flow's, the evicted flow's or the next one, and only what that slot holds changes |
| FlowTables.SameLedger | src/analysis/aggregator.rs:389-396 | the recency sequence determines the map, the slots' contents and their order |
| CrateFlowStates.CrateFlowState.Update | crates/r-nads-aggregator/src/lib.rs:72-144 | the history grows by the packet, and each of the crate's eight aggregates equals its fold over the last min(128, n) packets |
| CrateFlowStates.CrateFlowState.ComputeMetrics | crates/r-nads-aggregator/src/lib.rs:147-189 | on equal histories each of the crate's features, by name, has the value of the main program's |
| CrateFlowTables.PlacePacket | crates/r-nads-aggregator/src/lib.rs:236-288 | relinking performs the reference step and changes what one slot holds |
| CrateFlowTables.CrateFlowTable.StoreState | crates/r-nads-aggregator/src/lib.rs:246-283 | a known flow's state is updated, a new flow gets a new state in its slot, all other states keep their histories |
| CrateFlowTables.CrateFlowTable.ProcessPacket | crates/r-nads-aggregator/src/lib.rs:236-291 | the crate's table takes the reference step and reports its features of the flow at the front, and panics iff the capacity is 0 |
| Workers.RunWorker | src/main.rs:144-156 | the metrics a worker sends are those of the reference run over its packets; its table panics on the first packet iff its capacity is 0 |
| Workers.RunBoth | crates/r-nads-aggregator/src/lib.rs:236-291 | on every trace the main program's table and the crate's, with its own states, keep the same map, slots, recency order, initiators and histories and return, name by name, the same values of all shared features |
| Workers.WalkListsRecentFlows | src/analysis/aggregator.rs:420-557 | in a table that served a trace, k steps along next from the head reach the flow seen k-th most recently, for the min(c, d) resident flows, and then nothing |
| Pipeline.EveryScheduleInOrder | src/main.rs:135-242 | in every schedule nothing is lost, duplicated or reordered before the router, each worker's processed packets followed by its queue are its share of the accepted ones, queues respect their bounds, and tables and results are the reference ones |
| Pipeline.InternalStepsFinish | src/main.rs:144-242 | steps of router and workers work off pending packets and produce nothing, so only finitely many follow each other |
| Pipeline.SomethingCanHappen | src/main.rs:144-242 | while router and workers are there and anything is pending, some such step is possible |
| Pipeline.EverythingGetsProcessed | src/main.rs:144-242 | with a slot for every worker and before a stop, every reachable state can be drained without new packets, and then each worker has processed its whole share of what was produced |
| Pipeline.ResultsGetComplete | src/main.rs:144-242 | and each flow's results are then complete: those of its worker's share, and of one large enough table over all traffic while the flows fit |
| Pipeline.SendersWaitWhileFull | src/main.rs:136-234 | the producer waits iff its channel holds 30000 packets, the router iff the worker's holds 20000 |
| Pipeline.CanShutDown | src/main.rs:151-242 | from every reachable state, clearing the flag lets all workers and then the router leave without processing a packet |
| Pipeline.CapacityIsShared | src/main.rs:132 | the workers' capacities add up to at most the configured one and fall short by less than the number of workers |
| Pipeline.WorkerIsHashModulo | src/main.rs:229-232 | the worker index is congruent to the hash of the key |
| Pipeline.ScheduleDoesNotMatter | src/main.rs:144-156 | two schedules with comparable accepted traces give a worker the same table and results after equally many packets |
| Pipeline.SameTrafficSameResults | src/main.rs:220-242 | while no worker has left, the same already for comparable produced traffic |
| Pipeline.NobodyLeavesEarly | src/main.rs:132-156 | with at least one slot for every worker, no worker dies or leaves before the system is told to stop |
| Pipeline.RunningSystemIsDeterministic | src/main.rs:132-242 | so until then comparable traffic gives a worker the same table and results in any two schedules |
| Pipeline.UndersizedSystemIsSilent | src/main.rs:132-156 | with fewer slots than workers no schedule produces a result, and a worker is dead once it has taken a packet |
| Pipeline.ShardingAgreesWithOneTable | src/main.rs:132-234 | while a worker's flows fit its capacity, the results received for a flow are a prefix of those of one large enough table on the whole accepted trace |
| Pipeline.ResidentFlowsFit | src/main.rs:132-234 | all workers together never hold more flows than configured, and a flow lives in one worker only |
| Rff.ProjectFeatures | src/ml/svdd.rs:177-193 | the nested loops compute sqrt(2/D) * cos(Wz + b) in every coordinate |
| Rff.ProjectionNorm | src/ml/svdd.rs:177-193 | a projection's squared norm is at most 2 |
| Rff.DistanceExpands | crates/r-nads-inference/src/lib.rs:86-89 | the squared distance is the sum of squared norms less twice the inner product |
| Centroids.ColumnMeans | src/main.rs:623-645 | the accumulated and divided sums are the column means |
| Centroids.ColumnDeviations | src/main.rs:648-671 | the accumulated deviations are the clamped roots of the column variances |
| Centroids.CentroidMinimises | src/main.rs:763-771 | the total squared distance to any point exceeds that to the mean by n times their squared distance, so the mean is the unique minimum |
| Centroids.MeanDistance | src/main.rs:763-782 | mean squared distance is mean squared norm less the squared norm of the centre |
| Centroids.ZScoresAreStandard | src/main.rs:648-694 | z-scores sum to zero and their squares to n iff the deviation is not clamped, to less otherwise |
| Quantiles.FewExceedThreshold | src/main.rs:785-787 | fewer than 5% of any scores exceed their element at floor(0.95 n), and one more would reach 5% iff the next score in order differs from it |
| Svdd.EuclideanDistanceSq | src/ml/svdd.rs:202-210 | the loop computes the squared distance |
| Svdd.Predict | src/ml/svdd.rs:147-197 | the score is the distance from the projected z-scores to the centre, anomalous iff above the threshold |
| Svdd.ScoreFromFields | src/ml/svdd.rs:152-197 | the score of any model from the twelve named fields: squared distance between the centre and sqrt(2/D) * cos(row . z-scores + bias) for every row, deviations clamped at 1e-7 |
| Svdd.ScoreOfOneFeature | src/ml/svdd.rs:152-197 | each of the twelve fields reaches the score through the row that is 1 at its place |
| Svdd.PairDistances | src/main.rs:697-708 | the nested loops produce the list of pair distances, row by row |
| Svdd.PairAt | src/main.rs:697-708 | in a list of n(n-1)/2 distances each pair of rows has a position of its own |
| Svdd.Gamma | src/main.rs:709-711 | gamma is positive and 2 * gamma * clamped median is 1 |
| Svdd.GammaFromMedian | src/main.rs:697-711 | gamma is 0.5 over the clamped distance of some pair of rows, with fewer than half of all pairs farther apart and at most half closer |
| Svdd.ProjectionFromMedian | src/main.rs:696-742 | a trained model's projection is drawn with that gamma, over the first 2000 of its training inputs |
| Svdd.TrainModel | src/main.rs:616-807 | an error for no sample, a panic for one, the trained model for two or more |
| Svdd.TrainerAgreesWithClassifier | src/main.rs:674-787 | centre and threshold are those of the projections and scores the classifier computes for the training samples |
| Svdd.TrainingSetIsStandardised | src/main.rs:648-694 | every feature of the training set, as the classifier normalises it, sums to zero; its squares times the squared deviation, at least 1e-7, sum to n times the variance, and to n iff not clamped |
| Svdd.FewTrainingSamplesFlagged | src/main.rs:747-787 | the classifier flags strictly fewer than 5% of its own training samples |
| Svdd.TrainedCentroidIsBest | src/main.rs:763-782 | the trained centre is the unique minimiser over the projected samples, with the mean distance formula |
| Svdd.ScoresAreBounded | src/ml/svdd.rs:175-197 | every score of a trained model lies in [0, 8] |
| ExpandedSvdd.WeighProjection | crates/r-nads-inference/src/lib.rs:69-84 | the fused loop computes the inner product of weights and projection |
| ExpandedSvdd.Predict | crates/r-nads-inference/src/lib.rs:53-95 | the score is the clamped expanded distance, anomalous iff above the threshold |
| ExpandedSvdd.ScoreFromFields | crates/r-nads-inference/src/lib.rs:53-89 | the score of any model from the six named fields: 1 - 2<w, phi> + stored norm, at least 0, with phi as sqrt(2/D) * cos(row . z-scores + bias) |
| ExpandedSvdd.TrainedWeightsAreBest | crates/r-nads-bin/src/main.rs:453-464 | the trained weights are the unique minimiser of the total squared distance to the samples' projections, and the stored norm is theirs |
| ExpandedSvdd.TrainingSetIsStandardised | crates/r-nads-bin/src/main.rs:354-441 | every feature of the training set, as the classifier normalises it, sums to zero with the squares of a standardised column |
| ExpandedSvdd.Train | crates/r-nads-bin/src/main.rs:347-496 | an error for no sample, otherwise the trained model |
| ExpandedSvdd.ExpandedNearExact | crates/r-nads-inference/src/lib.rs:86-89 | with the true norm of the weights the clamped expanded distance is within 1 of the exact one for every D, off by 1 less the squared norm of the projection when not clamped |
| ExpandedSvdd.BoundIsTight | crates/r-nads-inference/src/lib.rs:86-89 | a one-dimensional projection is off by the full 1 |
| ExpandedSvdd.VerdictsAgreeAwayFromThreshold | crates/r-nads-inference/src/lib.rs:86-94 | a trained model's verdict is that of the exact distance whenever that is more than 1 from the threshold |
| ExpandedSvdd.TrainerAgreesWithClassifier | crates/r-nads-bin/src/main.rs:467-479 | the trainer's threshold is the quantile of the scores the classifier gives the training samples |
| ExpandedSvdd.FewTrainingSamplesFlagged | crates/r-nads-bin/src/main.rs:467-479 | this classifier too flags strictly fewer than 5% of its training samples |
| Blocklists.Mitigation.RecordVerdict | src/main.rs:530-544 | an anomalous verdict lists the address at the current time, a normal one unlists it |
| Blocklists.Mitigation.Check | src/mitigation/nginx.rs:74-125 | detected iff listed for less than the TTL, forbidden iff also in mitigate mode, expired entries removed |
| Blocklists.DoomedIff | src/mitigation/nginx.rs:80-84 | the address about to be removed is the one whose pending lookup found it expired |
| Blocklists.ListedIff | src/mitigation/nginx.rs:74-89 | in every interleaving the list agrees with the log of verdicts, clock, checks and TTL changes: who is listed, and since when |
| Blocklists.BlockedIff | src/mitigation/nginx.rs:74-89 | in every interleaving and TTL history, blocked iff the log's last verdict is anomalous, younger than the TTL, and no later event of the log forgets it |
| Blocklists.AtomicBlockedIff | src/mitigation/nginx.rs:74-89 | with atomic checks and any TTL history, a recent anomalous verdict fails to block iff some later check found it at least as old as the TTL of that time |
| Blocklists.SplitBlockedIff | src/mitigation/nginx.rs:74-89 | when the TTL never grew, a recent anomalous verdict fails to block iff a removal completed after it whose lookup, before it, found an outdated listing |
| Blocklists.AtomicChecksAreExact | src/mitigation/nginx.rs:74-89 | with atomic checks and a TTL that never grew, blocked iff the last verdict was anomalous and younger than the TTL |
| Blocklists.SplitCheckLosesVerdict | src/mitigation/nginx.rs:82-86 | for every positive TTL, kept constant, a removal that overtakes a new verdict unlists an address just found anomalous |
| Blocklists.RaisedTtlForgets | src/mitigation/nginx.rs:76-86 | an address forgotten under any TTL stays forgotten under a longer one |
| Verdicts.ReportedAddress | src/analysis/aggregator.rs:342 | the address on which a verdict is recorded is the smaller one of the flow's key |
| Verdicts.ListedIffLastVerdict | src/main.rs:530-544 | after the verdicts of any results an address is listed iff the last verdict on it is anomalous |
| Verdicts.VerdictsDoNotDependOnSchedule | src/main.rs:220-544 | if one worker serves all flows of an address, the verdicts on it, and whether it is listed, depend only on how many packets that worker has consumed |
| Verdicts.VerdictsDependOnSchedule | src/main.rs:220-544 | if two flows of an address live in different workers and their first packets are judged differently, two schedules of the same traffic, run to the end, disagree on whether it is listed |
| Verdicts.LengthsDecideListing | src/main.rs:220-544 | any two such packets, one longer than a bound and one not, do so for a classifier on the mean length |

## Left out

- Floating point: rates, means, variances, distances and thresholds are reals; rounding, infinities and NaN ordering are not modelled, and 0.95 is exactly 95/100.
- Overflow checks of debug builds: sums of squares and packet totals wrap modulo 2^64 as in a release build, where a debug build would panic.
- Random numbers, logarithms and the Gaussian transform: the weights and biases are an arbitrary function of gamma.
- The wall-clock timestamp in the crate's metrics; and the crate's table keeps its states beside the slots of the overwriting `FlowTable` rather than in them.
- The eleven rolling counters are grouped in one record, and nodes are values in the slab, since Rust owns them there; only ring buffers are shared objects.
- The in-place sorts are represented by their result, which `Sorting.SortedIsUnique` shows to be the only ascending rearrangement.
- On a miss the metrics are computed before the map and list are updated in the source and after it in the model; neither reads the other.
- The trainers rebuild each sample's feature vector in every pass; the model extracts the vectors once.
- Zero workers: the division at src/main.rs:132 would panic at start, and the pipeline model requires at least one worker.
- Receive timeouts, packet and latency counters, and the order in which packets of different workers reach the inference thread beyond interleaving.
- The `contains_key` and `remove` pair of the inference thread is one step; DashMap, slab, hash map, channels and hasher are a finite map, a contiguous sequence, a map, bounded queues and an arbitrary function of the key.
- The configuration watcher appears only as changes of the TTL and as the mode given to a check.
- Capture, parsing, mock traffic, HTTP plumbing and headers, dashboards, SQLite, logs, alerts, JSON files: input, output and field copying.
