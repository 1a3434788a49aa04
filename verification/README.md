# SynapseIDS in Dafny

Models of the stateful and arithmetic cores of the intrusion-detection daemon, with proofs about every run, every
interleaving or every input. `dafny verify dfyconfig.toml` checks the whole project.

- **Flow engine** (`Flow*.dfy`, `Pacer.dfy`, `Strand*.dfy`, `Feature*.dfy`). `FlowSpec` is the flow table as a state
  machine in which Go's map iteration order is part of each event, so every statement holds for every order.
  `FlowTable` is the mutable table, each method tied to the machine. On top: the unbounded table is a product of
  independent one-flow machines; packets, bytes and payload are conserved; flow IDs live once; every record equals a
  batch computation over the packets its flow had received when it was emitted; who initiated a flow, when TCP ends
  it, which packets are ignored after that and when it is reported, in addresses, flags and timestamps alone; exactly
  which streams of timestamps let a flow outlive its timers; each value of an emitted feature vector, in terms of the
  packets.
- **Detection store** (`Alert*.dfy`). Heap objects shared by a ring and two indexes, tied to a value-level store whose
  invariant survives folding, eviction and hole-making purges; the counters balance; which occurrences become
  detections, in the terms of the policy in force at each moment; each detection summarises its occurrences; queries
  return the one ordered answer.
- **Eigensolver and statistics** (`Moments`, `Matrices`, `Eigen`, `Jacobi`, `Statistics`, `Correlation`). The cyclic
  Jacobi solver in place over exact arithmetic, and what each sweep takes off; three forms of the variance; the Pearson
  matrix.
- **Audit-log reader** (`AuditTail.dfy`). The backwards chunked reader equals "split, reverse, filter, take n", and
  that is the one list of the latest wanted lines, by their offsets in the file.
- **Capture fan-in** (`FanIn*.dfy`). Forwarders, sampler, pipeline and callers as one transition system.
- **Formats** (`Bytes`, `BpfChunk`, `BpfResults`, `Pcapng`, `PcapngResults`, `RemoteCommand`). Parsers that invert
  their encodings, and a printer that a POSIX shell inverts.

## What turned out to need a condition

- *Eviction.* An overflowing table may evict the flow it has just opened: its packet is then lost, or, if it is a reset,
  reported twice. `Conservation` is the ledger of every run with the losses in it; `ConservationIff`, `LivesRunIff` and
  `TracedRunIff` say exactly which runs lose nothing, report each flow once and emit only records that are replays.
  For one arrival and every map order the exact conditions are in terms of `FlowLedger.Spares` (some live flow is
  strictly older than the packet, checkable before the call): `ConservedIff`, `BalancedIff`, `LivesIff`, `TracedIff`.
  `OutOfOrderWitness` has two failing runs. Theorems over runs assume that no packet (`SafeRun`) or no reset (`TidyRun`)
  evicts its own flow; `SparingIsSafe` derives it from `Spares`.
- *Zero timestamps.* A packet without a timestamp (a pcapng Simple Packet Block has none) can leave the pacer's clock
  unseeded, and the next packet then seeds it instead of expiring what is overdue. `TurnIff` is the exact condition
  for one packet, in terms of clock and timestamp; `StrandsIff` the exact set of timestamp streams, in any order, with
  any zeros and for any capacity, for which some run ends with an overdue flow; `OnlyZerosStrand` and `ExpiryIsTimely`
  say that only an unseeding zero, not the last packet and not followed by a tick, does it. `WindowQuietIff` is the
  exact condition for 512 packets without a tick. `GapsTelescope` says exactly when the gaps of a flow add up to its
  duration.
- *Deduplication window.* An occurrence without a timestamp counts as inside every window. If the window of the active
  detection ended before the zero time (pcapng seconds can wrap to such times), that detection is active beyond its
  window; a purge may then keep it and drop a newer one of its key, so that the key of a retained detection is no longer
  active (`ZeroOutlives`). `ApplyInv`, `StepInv` and `RunInvIff` are the exact conditions for one occurrence, one item
  and a run. Everything else (ring, ID index, objects, counters, summaries) holds in every run.
- *Flow list of a detection.* internal/alert/alert.go:50-51 and :74 promise the most recent distinct flow IDs. The code
  (:503-512) does not move an ID that occurs again to the end, so a full list may drop the latest one: `NewestIff` is
  the exact condition for one occurrence, `AlwaysNewestIff` for whole lists, `ReturningFlowDropped` the failing run.
- *Late Add.* `Manager.Add` launches without looking at the context. `LateAddIff`: the new forwarder can send on the
  closed channel exactly when the sampler's wait for the forwarders has already returned, whether or not the close has
  happened; before that, and in particular before cancellation, it never does. Accounting and order hold in all runs,
  late Adds included; that nothing is sent on the closed channel holds in runs without them (`TimelyRun`).
- *Close.* drain reads a source until that source closes its channel. `ProgressIff` and `CloseReturnsIff`: shutdown goes
  on by itself exactly until every forwarder left waits for its source, and Close can return without some sources'
  closing exactly when none of them has a forwarder left.
- *Simple Packet Blocks.* The reader ignores the interface's snapshot length, so a packet cut at a length that is no
  multiple of four comes back with its padding: `SimpleReadIff`.
- *Counters.* A counter survives the feature vector exactly when it has a 53-bit significand and is at most 2^63
  (`CounterRoundTrip`); every counter up to 2^53 does.
- The comment at internal/flow/table.go:126 speaks of a bare SYN; the code tests SYN and ACK. The model does, too.

## Model

| member | source | states |
|---|---|---|
| Flow.KeyIdentifiesUnorderedPair | internal/flow/flow.go:53-68 | two packets have one key iff they join the same two endpoints, in either direction, under one protocol |
| Flow.KeyOrientation | internal/flow/flow.go:37-68 | the flag says exactly whether the packet travels from endpoint A to endpoint B, and the key keeps its sensor and protocol |
| Flow.AccumulatorsRoundTrip | internal/flow/wire.go:44-100 | restoring a record's own accumulators and key is the identity, and turns any record with the same public fields into it |
| FlowTable.Table.Observe | internal/flow/table.go:75-112 | one packet is one legal step of the flow machine, with the eviction victim as its only choice |
| FlowTable.Table.DeliverTo | internal/flow/table.go:91-112 | a packet is folded into the entry found or opened, which may be an orphan, and a teardown removes the key |
| FlowTable.Table.AccountFor | internal/flow/table.go:91-104 | direction, fold and teardown flags of one packet |
| FlowTable.Table.Open | internal/flow/table.go:114-158 | opens the flow and evicts one of the oldest flows iff the table overflows |
| FlowTable.Table.EvictOldest | internal/flow/table.go:292-307 | the victim has the smallest LastSeen of all live flows, is emitted, closed and counted |
| FlowTable.Table.Fold | internal/flow/table.go:172-251 | all accumulators of one entry after one packet |
| FlowTable.Table.Tick | internal/flow/table.go:256-281 | a sweep visits each live flow once, in some order, after the grace set is pruned |
| FlowTable.Table.TickOne | internal/flow/table.go:262-280 | one entry of a sweep: over-age, idle or due for a snapshot, in that precedence |
| FlowTable.Table.Flush | internal/flow/table.go:284-290 | each live flow is emitted and closed once |
| FlowProduct.StepProjects | internal/flow/table.go:75-112 | one step of a table with room is, for each key, one step of that key's own machine or none |
| FlowProduct.TableIsProduct | internal/flow/table.go:75-290 | whatever the interleaving and the map orders, a key's live flow, grace entry and records are those of a machine fed only its packets and the clock |
| FlowProduct.UnboundedIsNeverFull | internal/flow/table.go:154-156 | MaxFlows = 0 gives runs in which no packet finds the table full |
| FlowProduct.SensorIsolation | internal/flow/flow.go:15-41 | two runs that agree on one sensor's packets agree on all of that sensor's flows |
| FlowProduct.ProductIffRoom | internal/flow/table.go:154-157 | an arrival is a step of the product iff it does not overflow the table |
| FlowLedger.ArrivalAccounts | internal/flow/table.go:75-158 | exactly how much an arrival adds to what is reported or held, case by case, for packets, bytes and payload |
| FlowLedger.SparesIffNewcomerSafe | internal/flow/table.go:292-307 | the hypothesis holds iff no map order lets the table evict the flow it has just opened |
| FlowLedger.ConservedIff | internal/flow/table.go:75-158 | an arrival conserves packet counts in every map order iff the table spares the newcomer or the packet is a reset |
| FlowLedger.Conservation | internal/flow/table.go:75-315 | in every run observed = absorbed by the grace set + lost with a flow that evicted itself + terminal records + live flows, for packets, bytes and payload |
| FlowLedger.ConservationIff | internal/flow/table.go:75-315 | a run loses no packet iff no packet but a reset evicts its own flow |
| FlowLedger.ConservationAtEnd | internal/flow/table.go:284-315 | after the final flush observed = absorbed + lost + terminal records |
| FlowLedger.SparingIsSafe | internal/flow/table.go:292-307 | if each overflowing packet finds an older live flow, none evicts its own flow, whatever the map orders |
| FlowLife.EveryFlowLivesOnce | internal/flow/table.go:105-324 | in every run in which no reset evicts its own flow started = closed + live, evicted <= closed, the capacity holds, and each flow ID shows snapshots 1..n and then one terminal record carrying n |
| FlowExact.LivesRunIff | internal/flow/table.go:105-324 | the flow IDs are so reported exactly in the runs in which no reset evicts its own flow; in any other run some ID has two terminal records |
| FlowExact.LivesIff | internal/flow/table.go:105-158 | one arrival keeps the IDs so reported in every map order iff the newcomer is spared or the packet is no reset |
| FlowLife.EveryFlowIsReported | internal/flow/table.go:284-290 | after the final flush of such a run every ID ever handed out has exactly one terminal record, its last, and no other ID has any |
| FlowLife.BalancedIff | internal/flow/table.go:105-158 | started = closed + live survives an arrival in every map order iff the newcomer is spared or the packet is no reset |
| FlowLife.ResetReportedTwice | internal/flow/table.go:105-158 | a reset that evicts its own flow is reported twice under one ID |
| FlowLife.OutOfOrderWitness | internal/flow/table.go:292-307 | two packets out of order in a table of one: the late datagram is counted nowhere, the late reset twice |
| FlowBatch.RecordsAreReplays | internal/flow/table.go:75-324 | in every run in which no packet evicts its own flow each live flow is the replay of its packets, each terminal record the replay of all of them and each snapshot of some first ones |
| FlowExact.TracedRunIff | internal/flow/table.go:75-324 | flows and records are replays exactly in the runs in which no packet evicts its own flow; in any other run some record is of no packets |
| FlowExact.TracedIff | internal/flow/table.go:105-158 | one arrival keeps flows and records replays in every map order iff the newcomer is spared |
| FlowEmission.RecordAtEmission | internal/flow/table.go:256-324 | each record, snapshot or terminal, is the replay of exactly the packets its flow had received by the end of the step that emitted it |
| FlowEmission.EmittedThere | internal/flow/table.go:309-324 | that step is the one whose output holds the record first |
| FlowSummary.ReplaySummarises | internal/flow/table.go:172-251 | the running counters, extrema, sums, gaps and flags of a flow equal a batch computation over its packet list |
| FlowOrigins.EveryFlowBegun | internal/flow/table.go:124-145 | in every run each live flow and each record has as initiator the source of its first packet, or the destination if that is a SYN+ACK, and starts at that packet's time, with its key and window |
| FlowOrigins.ForwardIsSent | internal/flow/table.go:161-170 | forward packets of a record are exactly those that this initiator sent |
| FlowOrigins.HandshakeOriented | internal/flow/table.go:124-130 | a SYN and the SYN+ACK that answers it give one flow with the same ends whichever comes first; the SYN counts forward, the SYN+ACK backward |
| FlowSnapshots.SweepOutcome | internal/flow/table.go:262-280 | in every run a sweep closes a flow over its lifetime or idle limit with that reason, else reports it iff an interval has passed since its last report or its first packet (and the due time is not the zero time), else leaves it alone |
| FlowSnapshots.SnapshotsSpread | internal/flow/table.go:275-279 | in every run the first snapshot of a flow comes from a sweep an interval after its first packet or later, and so does each one after the one before it |
| FlowCounters.CountersTell | internal/flow/table.go:23-29 | in every run, whatever is evicted, Snapshots and Evicted count the records of those reasons, Closed all records but snapshots, Started the IDs handed out |
| FlowTeardown.TeardownIff | internal/flow/table.go:94-112 | a record's reason is FinRst iff the flow's packets hold a reset or a FIN each way, and then the last packet is the first to make it so |
| FlowTeardown.LiveNotDown | internal/flow/table.go:94-112 | the packets of a flow that is still live do not |
| FlowGrace.IgnoredIff | internal/flow/table.go:78-112 | in every run a packet changes nothing iff its flow is not live, it is no TCP SYN, and less than three seconds before it a packet ended the last flow of its key, with no sweep three seconds after that one |
| FlowEnds.FallbackNeverTaken | internal/flow/table.go:161-170 | in every run, full table or not, each packet that hits a live flow comes from one of its two ends, so the fallback orientation is never taken |
| FlowEnds.EveryKeyFits | internal/flow/wire.go:86-100 | in every run deriving the key of a live flow or of an emitted record again changes nothing |
| FlowSummary.GapsTelescope | internal/flow/table.go:189-204 | in any timestamp order the gaps sum to at most LastSeen - FirstSeen, and to exactly that iff no gap starts at the zero time |
| FlowSummary.NonZeroTelescopes | internal/flow/table.go:189-204 | non-zero timestamps suffice for that |
| FlowSummary.EmittedRecordsLawful | internal/flow/flow.go:85-221 | every record of a run in which no packet evicts its own flow has consistent extrema, means and variances, round-trips through the wire form and counts exactly the packets its flow had received by the step that emitted it |
| Pacing.Pacer.Due | internal/flow/pacer.go:27-58 | the in-place clock is the specified one |
| Pacing.WindowQuietIff | internal/flow/pacer.go:27-58 | for any stream: 512 consecutive packets cause no tick iff the one at which the count is due comes below the minimum since the window began (or finds the clock unseeded) and none is a second ahead of that minimum |
| Pacing.WindowTicks | internal/flow/pacer.go:7-58 | over an ordered stream any 512 consecutive packets after the seeding one contain a tick, however many zero timestamps come first |
| Pacing.DecreasingNeverTicks | internal/flow/pacer.go:27-58 | a stream that only steps back never ticks |
| Pacing.TurnIff | internal/flow/pacer.go:27-40 | one packet is sure to leave a table that was up to date at the clock up to date within a second iff the clock is seeded, the timestamp is at most a second, or no timer is set |
| StrandedRuns.StrandsIff | internal/pipeline/pipeline.go:322-334 | for any stream of timestamps, timers and capacity: some run with it ends with a live flow overdue by a second iff the timestamps alone say that a flow started or last touched by some packet survives every tick and is that far behind (and, with room for one flow, that the grace set can absorb every later packet with a later timestamp) |
| Stranding.OverdueStrands | internal/flow/table.go:256-281 | the direction from runs to timestamps |
| StrandedRuns.StrandedRun | internal/flow/table.go:75-158 | the other direction: a run for every such stream, with resets that close their own flows at once and trailing packets that the grace set absorbs |
| Stranding.OnlyZerosStrand | internal/flow/pacer.go:27-40 | such a stream has a zero timestamp that unseeds the clock, is not the last and is not followed by a tick |
| Stranding.ExpiryIsTimely | internal/pipeline/pipeline.go:322-334 | in every run without such a zero no live flow has outlived the idle or lifetime limit by a second after any packet |
| Pacing.ZeroTimestampStrands | internal/flow/pacer.go:27-40 | a packet with the zero timestamp leaves a flow behind that the next packet does not expire |
| Features.Extract | internal/features/features.go:96-195 | the array filled by index is the specified vector |
| Features.Float64Exact | internal/features/features.go:115-118 | converting a counter to float64 is exact iff it has a 53-bit significand |
| Features.Float64Near | internal/features/features.go:115-118 | a counter moves by at most half the spacing of the floats around it |
| Features.TiesToEven | internal/features/features.go:115-118 | and halfway between two of them to the even one |
| Features.CounterRoundTrip | internal/features/features.go:70-75 | a counter is read back iff it has a 53-bit significand and is at most 2^63; all up to 2^53 are |
| Features.CountsRecovered | internal/features/features.go:48-68 | Counts recovers the four counters of a record iff each of them can be read back |
| Features.SizeFeatures | internal/features/features.go:96-195 | min <= mean <= max packet size, and the deviation squared is the population variance, for every lawful record |
| Features.GapFeatures | internal/features/features.go:96-195 | min <= mean <= max gap, the gaps fit the duration, and the deviation squared is the population variance |
| Features.RatioFeatures | internal/features/features.go:96-238 | direction ratios in [0,1], small plus large at most 1, one-hot context, at most one protocol |
| Features.RateFeatures | internal/features/features.go:96-195 | directional rates add up, and a rate times a measurable duration is the total |
| Features.VarianceClampIdle | internal/flow/flow.go:137-148 | n times the sum of squares being at least the squared sum, the negative-variance clamp never fires |
| FeatureVectors.EmittedVectors | internal/features/features.go:96-238 | the vector of every record of such a run: each of its 48 values in terms of the packets the flow had received by the step that emitted it |
| AlertInvariant.ApplyCore | internal/alert/alert.go:418-555 | whatever the timestamps, folding, evicting and opening keep the ring, ID index, objects and counters consistent, and active keys lead to retained detections |
| AlertInvariant.ApplyInv | internal/alert/alert.go:418-513 | an occurrence also keeps every retained key active, detections of a key a window apart and each active within its window, iff it is not one without a timestamp absorbed after a window that ended before the zero time |
| AlertInvariant.PurgeCore | internal/alert/alert.go:371-385 | a purge that leaves holes keeps exactly the detections active at or after the bound, and ring, indexes and counters consistent |
| AlertInvariant.PurgeInv | internal/alert/alert.go:371-385 | and it keeps the rest |
| AlertInvariant.PurgeToEffect | internal/alert/alert.go:371-385 | the slot-by-slot sweep in closed form |
| AlertInvariant.HeadIsOldest | internal/alert/alert.go:517-555 | the head of the ring holds the oldest retained detection, so an eviction never takes a newer one of its key |
| AlertInvariant.StepInv | internal/alert/alert.go:387-416 | an item the aggregator takes keeps the whole invariant iff it is not such an occurrence |
| AlertInvariant.RunInvIff | internal/alert/alert.go:387-555 | the invariant holds after a run iff no item of the run was |
| AlertInvariant.NeverBackIf | internal/alert/alert.go:475-480 | none is, if all occurrences have a timestamp or none precedes the zero time |
| AlertInvariant.ZeroOutlives | internal/alert/alert.go:371-385 | otherwise: a run after which a retained detection's key is not active |
| AlertSpec.Policy.MatchSuppress | internal/alert/alert.go:565-572 | the first suppression rule that covers an occurrence, if there is one |
| AlertVerdicts.DecideIff | internal/alert/policy.go:68-128 | one verdict alerts iff the policy is on, the class has a severity, and the score has reached the class's own threshold (the floor if it has none) or the models disagreed and the policy alerts on that; its reason names the arm that held |
| AlertVerdicts.FateIff | internal/alert/alert.go:418-460 | so one occurrence is non-alertable, suppressed, suppressed by rule or counted in a detection, each iff the policy says so |
| AlertVerdicts.PolicyInForce | internal/alert/alert.go:387-416 | the policy at any moment of a run is the last one set |
| AlertVerdicts.CountersTell | internal/alert/alert.go:418-460 | in every run each counter, the per-rule ones included, is the number of occurrences that the policy in force sent there |
| AlertVerdicts.MembersTell | internal/alert/alert.go:418-555 | in every run the detections are made of exactly the occurrences that the policy in force wanted and no rule covered, each in one detection |
| AlertVerdicts.DetectionTells | internal/alert/alert.go:484-555 | each detection counts its occurrences, all of its key, and takes confidence, models and a reason that was true under the policy then in force from the first with the highest score |
| AlertLedger.BooksBalance | internal/alert/alert.go:418-555 | in every run observed = non-alertable + suppressed + suppressed by rule + created + deduped; counts of all detections ever opened add up to created + deduped; created = retained + evicted + expired |
| AlertLedger.DetectionsSummarise | internal/alert/alert.go:484-555 | in every run each detection ever opened has its first occurrence's identity, the latest time, the count, and Confidence, Reason and Models of the first occurrence with the highest score |
| AlertLedger.FlowListHolds | internal/alert/alert.go:498-512 | the flow list is distinct, at most 20 long, holds the latest occurrence and, while not full, all of them |
| AlertLedger.NewestIff | internal/alert/alert.go:50-54 | a full list stays the most recent distinct IDs iff the one it drops has been silent longest |
| AlertLedger.AlwaysNewestIff | internal/alert/alert.go:50-54 | at every moment the list is the most recent distinct IDs iff every ID pushed out had been silent longest |
| AlertLedger.ReturningFlowDropped | internal/alert/alert.go:503-512 | twenty flows, the first again, then a new one: the flow that occurred last is dropped |
| AlertQuery.AnswerUnique | internal/alert/alert.go:643-676 | there is only one ordered answer to a query, so the ring's layout does not show |
| AlertQuery.Narrowed | internal/alert/alert.go:605-676 | each filter of a query cuts the unfiltered answer down to what it names, and together they cut it to what all name |
| AlertQuery.SinceCuts | internal/alert/alert.go:605-676 | `since` takes off exactly the end of the ordered answer that was last seen before it |
| AlertQuery.AllCollected | internal/alert/alert.go:648-660 | the walk back from the head finds exactly the matching retained detections |
| AlertQuery.SortRecent | internal/alert/alert.go:664-669 | sorted by (LastTS, ID) descending, nothing lost or invented |
| AlertStore.Store.Apply | internal/alert/alert.go:418-460 | the mutable store does what the value-level store does for one occurrence |
| AlertStore.Store.Open | internal/alert/alert.go:517-555 | the head slot is freed, the new object enters ring and both indexes |
| AlertStore.Store.Purge | internal/alert/alert.go:371-385 | the in-place sweep is the specified one, and replaces no object |
| AlertStore.Store.Detections | internal/alert/alert.go:643-676 | the page and the total are those of the ordered set of matching retained detections |
| AlertStore.Detection.Fold | internal/alert/alert.go:484-513 | one repeat occurrence folded in place |
| AlertStore.Store.SetPolicy | internal/alert/alert.go:387-416 | a policy swap restarts the rule counts and nothing else |
| Matrices.KeepsSymmetry | internal/dataset/stats.go:747-764 | a two-sided plane rotation keeps a symmetric matrix symmetric |
| Matrices.KeepsTrace | internal/dataset/stats.go:747-764 | it keeps the trace |
| Matrices.KeepsFrobenius | internal/dataset/stats.go:747-764 | it keeps the Frobenius norm |
| Eigen.RotationDecomposes | internal/dataset/stats.go:747-764 | every rotation with c^2+s^2=1 keeps V orthonormal by rows and columns, V'MV = A and MV = VA, for every n |
| Eigen.RotationShrinks | internal/dataset/stats.go:724-735 | the chosen angle zeroes a[p][q] and takes exactly its square off the upper triangle's sum of squares |
| Eigen.ResidualsAreOff | internal/dataset/stats.go:714-742 | the squared errors of all eigenpairs add up to twice the remaining off-diagonal mass |
| Jacobi.Rotate | internal/dataset/stats.go:747-764 | the three in-place loops are one two-sided rotation and its accumulation |
| Jacobi.Eliminate | internal/dataset/stats.go:726-733 | one pair is skipped or annihilated, and the off-diagonal mass drops by its square |
| Jacobi.Sweep | internal/dataset/stats.go:724-735 | a sweep visits every pair once in order and takes exactly the squares of the entries above the threshold that it meets off the off-diagonal mass; it changes nothing iff it meets none |
| Jacobi.NoneMetIff | internal/dataset/stats.go:724-735 | a sweep meets no such entry iff the matrix it starts from has none off the diagonal |
| Jacobi.OnePair | internal/dataset/stats.go:724-735 | for two rows one sweep takes off all there is |
| Jacobi.EigenSym | internal/dataset/stats.go:704-743 | the answer is an orthogonal similarity of the input after any number of sweeps, eigenvalues sum to the trace, the off-diagonal mass drops strictly with every sweep unless nothing above the threshold is left, ends at most at the threshold unless the sweep cap was hit, and for two rows is gone after one sweep |
| Moments.CauchySchwarz | internal/dataset/stats.go:479-526 | (x.y)^2 <= (x.x)(y.y) for all vectors |
| Statistics.KeptAre | internal/api/drift.go:68-99 | the rows that count are, in order, exactly those last seen in the time range, both ends included, by one of the sensors asked for |
| Statistics.Welford | internal/api/drift.go:68-99 | the one-pass loop over the rows in the time range and sensor scope yields each feature's mean and the root of its mean squared deviation |
| Statistics.WelfordStep | internal/api/drift.go:80-85 | one row updates mean and M2 to those of the longer list |
| Statistics.ThreeVariancesAgree | internal/flow/flow.go:137-148 | Welford's M2, the two-pass sum and the sum-of-squares formula are the same non-negative number |
| Statistics.TwoPassIsSumOfSquares | internal/dataset/stats.go:346-368 | the squared deviations from the mean add up to the sum of squares less the mean times the sum |
| Statistics.ColumnMoments | internal/dataset/stats.go:346-368 | the two passes yield each column's mean and population deviation |
| Correlations.Covariances | internal/dataset/stats.go:484-500 | the upper triangle holds the covariance sums although zero deviations are skipped |
| Correlations.PearsonInRange | internal/dataset/stats.go:517-520 | the quotient is already in [-1, 1], so the clamp is the identity |
| Correlations.CovBounded | internal/dataset/stats.go:479-526 | a covariance is symmetric and its square at most the product of the variances |
| Correlations.Correlation | internal/dataset/stats.go:479-526 | a symmetric matrix of Pearson coefficients in [-1, 1], 0 for constant columns and 1 on the rest of the diagonal |
| AuditTail.Tail | internal/audit/read.go:107-182 | for every file, n, filter and chunk size, the result of the simple reader, which is the latest wanted lines of the window, newest first; a missing or empty file gives nothing |
| AuditTail.SimpleTailIs | internal/audit/read.go:88-182 | by offsets: each record returned is that of a line of the window that decodes and is wanted, each later one lies further up, and a wanted line is missing only above the last one listed of a full list |
| AuditTail.TailUnique | internal/audit/read.go:88-182 | there is only one such list |
| AuditTail.Scan | internal/audit/read.go:143-180 | the chunk walk with its carry computes one pass from the back of the window |
| AuditTail.Walk | internal/audit/read.go:154-170 | the whole lines of one chunk are taken from the back and the incomplete first one is carried |
| AuditTail.GatherIsSimple | internal/audit/read.go:107-182 | one pass from the back is split, reverse, filter, take n, without the fragment that precedes the window's first newline |
| AuditTail.SplitInvertsJoin | internal/audit/read.go:18-20 | splitting cuts at the newlines and nowhere else |
| AuditTail.JoinInvertsSplit | internal/audit/read.go:18-20 | and is the only such cut |
| AuditTail.AppendedComesFirst | internal/audit/read.go:88-96 | a line appended to a log of whole lines is returned first, followed by what a read returned before |
| FanInSafety.StepInv | internal/capture/manager.go:157-389 | every step of every goroutine keeps registration, accounting, order and states consistent, and a step that is no late Add keeps the channel open for every forwarder there is |
| FanInSafety.StreamForward | internal/capture/manager.go:281-329 | a forwarder's packets are those of its source, stamped and in order, up to what it dropped |
| FanInResults.EveryPacketAccounted | internal/capture/manager.go:248-331 | over all interleavings, late Adds included, pulled = consumed + queued + in hand + shutdown drops |
| FanInResults.NothingLostAfterClose | internal/capture/manager.go:536-570 | once Close has returned pulled = consumed + shutdown drops, and nothing is queued or in hand |
| FanInResults.ClosedAfterTheLast | internal/capture/manager.go:367-389 | in a run without a late Add nothing is sent on the closed channel, and once the sampler's wait has returned every forwarder is gone |
| FanInResults.PerSourceOrder | internal/capture/manager.go:298-328 | the pipeline sees each source's packets in source order, without a gap until the channel is closed |
| FanInResults.Attributed | internal/capture/manager.go:303-315 | a packet keeps the sensor it came with, and otherwise gets its source's |
| FanInIsolation.FailureIsIsolated | internal/capture/manager.go:98-105 | for every run and every source, with a source that delivers nothing and never fails in its place, every other source pulls, sends, drops and has consumed the same packets and is shown in the same state |
| FanInIsolation.ShadowsPrefix | internal/capture/manager.go:98-105 | and so at every moment of the run |
| FanInResults.FailureStaysVisible | internal/capture/manager.go:289-303 | whatever the state it is in, a source is shown as failed later iff it fails on the way, or is shown so now, and its removal is not completed after that |
| FanInResults.FailedIff | internal/capture/manager.go:281-345 | over any run of a manager a source is shown as failed iff it has failed and its removal has not been completed since |
| FanInResults.CancelledIff | internal/capture/manager.go:228-246 | the manager is shutting down iff it was cancelled or the context of the first caller was from the start; the merged channel never holds more than its capacity |
| FanInResults.LateAddIff | internal/capture/manager.go:157-180 | after Add some continuation sends on the closed channel iff the sampler's wait had returned before Add, which it does only after cancellation |
| FanInResults.ProgressIff | internal/capture/manager.go:267-389 | once cancelled and until Close can return, forwarders and sampler can go on by themselves iff not every forwarder left is draining a source that has not closed its channel |
| FanInResults.LessToDo | internal/capture/manager.go:267-389 | every such step, and a source's closing its channel, leaves less to do |
| FanInResults.OpenSourceBlocks | internal/capture/manager.go:268-279 | a source that has a forwarder and never closes its channel keeps Close waiting in every run |
| FanInResults.CloseReturnsIff | internal/capture/manager.go:536-570 | after cancellation Close can return without a set of sources closing their channels iff none of them has a forwarder left |
| FanInResults.CloseCanReturn | internal/capture/manager.go:536-570 | and then without the pipeline consuming anything |
| Bytes.PutUint | internal/capture/bpfchunk.go:168-178 | a fixed-width field written in either byte order reads back |
| BpfChunk.WordAlign | internal/capture/bpfchunk.go:98-106 | the next multiple of a power of two, no padding for any other alignment |
| BpfChunk.PowerOfTwoIff | internal/capture/bpfchunk.go:98-106 | the alignments that count are the powers of two |
| BpfChunk.RecordAt | internal/capture/bpfchunk.go:126-151 | a record and its frame lie in the chunk, the frame behind the header, and the next record starts further on |
| BpfChunk.ParseBPFChunk | internal/capture/bpfchunk.go:116-154 | appends the records of the specified walk and returns its error, on any bytes |
| BpfResults.LongestPrefix | internal/capture/bpfchunk.go:108-116 | the records are the longest chain of well-formed ones, and an error is returned iff bytes are left that are no record, and it is theirs |
| BpfResults.FramesApart | internal/capture/bpfchunk.go:121-152 | frames are disjoint, increasing and inside the chunk |
| BpfResults.TimeIsExact | internal/capture/bpfchunk.go:156-166 | for layouts whose units make a second the timestamp is exact and its fraction below a second |
| BpfResults.ChunkRoundTrip | internal/capture/bpfchunk.go:14-32 | parsing inverts the word-aligned encoding of any records in either byte order, with any bytes as padding, the last pad present, cut or elided |
| Pcapng.TsUnitsPerSec | internal/capture/pcapng.go:236-254 | accepts a resolution iff its scale is below 2^64, and returns that scale |
| Pcapng.ResolutionScale | internal/capture/pcapng.go:236-254 | the low seven bits are an exponent of ten, or of two if the high bit is set; the default of a million is exponent six |
| Pcapng.ResolutionAccepted | internal/capture/pcapng.go:236-254 | accepted are exponents of ten up to 19 and of two up to 63, and no others |
| Pcapng.TimeOfTicks | internal/capture/pcapng.go:300-309 | a packet's time is the last nanosecond not after its tick, unless int64 seconds wrap, and then 2^64 seconds early |
| Pcapng.ScaleNGTime | internal/capture/pcapng.go:300-309 | never traps in the division, and seconds and nanoseconds are exactly the floor of the tick count's nanoseconds |
| Pcapng.Reader.TakeBlock | internal/capture/pcapng.go:105-130 | one block or its error, and how much input is consumed either way |
| Pcapng.Reader.AddInterface | internal/capture/pcapng.go:198-234 | one interface is declared, with a scale below 2^64, or the error is returned and nothing changes |
| Pcapng.Reader.ReadOptions | internal/capture/pcapng.go:211-230 | the option loop is the specified walk |
| Pcapng.Reader.ParseEPB | internal/capture/pcapng.go:257-277 | the packet, link type and exact time of an enhanced packet block |
| Pcapng.Reader.TakeNext | internal/capture/pcapng.go:134-161 | the next packet, the end or the error, with interfaces remembered and unknown blocks skipped |
| Pcapng.NewReader | internal/capture/pcapng.go:66-100 | the section header fixes the byte order, or is refused |
| PcapngResults.BlockReadIff | internal/capture/pcapng.go:105-130 | the reader takes for a block exactly the frames of whole words, with equal lengths before and behind, of at most 0x50000 bytes |
| PcapngResults.NextSane | internal/capture/pcapng.go:198-234 | however many interface blocks come, at most 256 are held, all Ethernet or raw IP with a scale below 2^64 |
| PcapngResults.OptionsRead | internal/capture/pcapng.go:211-230 | of encoded options, closed by opt_endofopt or not, the last if_tsresol decides the scale |
| PcapngResults.ReadInvertsEncode | internal/capture/pcapng.go:134-161 | reading the blocks of a section gives back its packets in order, whether option lists are absent, closed or not, with any bytes as padding |
| PcapngResults.SectionRoundTrip | internal/capture/pcapng.go:66-161 | so does reading a whole one-section file in either byte order |
| PcapngResults.SimpleReadIff | internal/capture/pcapng.go:281-297 | a simple packet reads back iff it was not cut or was cut at a multiple of four bytes |
| RemoteCommand.ShQuote | internal/capture/ssh_tcpdump.go:174-194 | only arguments made of safe characters are printed bare, and then unchanged |
| RemoteCommand.BareIff | internal/capture/ssh_tcpdump.go:174-194 | an argument is printed bare iff it is not empty and holds nothing but 72 literal characters; otherwise it stands between quotes |
| RemoteCommand.ItoaReads | internal/capture/ssh_tcpdump.go:158-169 | a number is printed in its decimal digits, without leading zeros |
| RemoteCommand.FieldsWeave | internal/capture/ssh_tcpdump.go:158-169 | the filter is its tokens with gaps of white space around them, tokens without white space |
| RemoteCommand.FieldsUnique | internal/capture/ssh_tcpdump.go:158-169 | and no other tokens make it up |
| RemoteCommand.LexQuote | internal/capture/ssh_tcpdump.go:171-182 | a shell reads a quoted argument as one word, the argument |
| RemoteCommand.SplitInvertsPrint | internal/capture/ssh_tcpdump.go:151-182 | a shell splits a printed line into exactly the arguments, for every argument list |
| RemoteCommand.RemoteTcpdumpCommand | internal/capture/ssh_tcpdump.go:158-169 | the printed remote command is read as binary, fixed flags, interface, snapshot length and filter tokens |
| RemoteCommand.PrintInjective | internal/capture/ssh_tcpdump.go:158-169 | different argument lists are printed differently |

## Left out

- The caller-supplied ID generator of the flow table (Options.IDGen); IDs come from the table's counter.
- Width of the flow counters and of time.Duration: counters are naturals and times unbounded nanoseconds, the zero time being 0. The pcapng and BPF timestamps do wrap where int64 does.
- Floating point: sums, means and matrices are over exact reals; NaN and infinity clean-up and the float32 cast of the correlation matrix and the vector are not modelled. The square root is any function that squares back, cosine and sine of the solver's angle any pair that satisfies the half-angle identity.
- Addresses are totally ordered numbers; whether one is internal is a parameter of the feature vector.
- Features.Extract: over exact arithmetic no value is NaN or infinite, so the loop that replaces such values is not modelled; counters are rounded to float64 only where they are read back.
- AlertStore.Store.Apply: the queue between callers and the aggregator, the event bus, and reading Stats while the aggregator runs are not modelled; items are applied one at a time. Suppression rules are predicates on an occurrence.
- AlertQuery.SortRecent: an insertion sort stands in for the library sort.
- Jacobi.EigenSym: that the sweeps converge before the cap is not claimed, only what holds when the loop ends. Sorting eigenpairs, sign fixing and the projection of points are not modelled.
- Statistics.Welford: the first- and last-seen window and the z-scores of the handler are not modelled.
- Correlations.Correlation: the matrix is two-dimensional, not flattened by row.
- AuditTail.Tail: decoding one line and matching a record are parameters; read errors and a file that shrinks while it is read are not modelled.
- FanInResults.CloseReturnsIff: states that Close can return, not that a scheduler is fair. Goroutines are steps on values rather than objects; per-source rates, source statistics and the five-second bound of Remove (which may end at any time here) are not modelled, and the merged channel hands over only through its buffer.
- FanInResults.ClosedAfterTheLast: for runs without an Add after the sampler's wait has returned, because LateAddIff shows that such an Add can panic. The panic of sync.WaitGroup itself, when Add runs between the last forwarder's exit and the sampler's waking up from Wait, is not modelled.
- BpfChunk.WordAlign: the bit tests on the alignment are written as arithmetic on non-negative integers.
- Pcapng.Reader.TakeBlock: the reused block buffer is a value, so a record's data does not change with the next call. OpenPCAPFile's header check (primeInterfaces) is not modelled.
- PcapngResults.SectionRoundTrip: simple packets cut at other lengths are excluded, because SimpleReadIff shows that they do not read back.
- RemoteCommand.SplitInvertsPrint: token recognition and quoting only (sections 2.2 and 2.3 of the Shell Command Language, IEEE Std 1003.1-2017); assignment words, reserved words and aliases (sections 2.3.1, 2.4 and 2.9.1) are not modelled. White space in the filter is a parameter.
- Sockets, TLS, capture devices, subprocesses, HTTP handlers, the command line, configuration files, dataset directories, histograms, ensemble roles and storage.
