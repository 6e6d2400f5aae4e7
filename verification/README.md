# Verification of the goodmetrics aggregation pipeline

This project models the part of goodmetrics that holds state and does arithmetic, and proves what users of the
library rely on. `dafny verify dfyconfig.toml` checks all of it. Nothing was executed.

The code it models works in four stages.

1. **Sketches.** A t-digest keeps at most `max_size` weighted centroids. It absorbs sorted or unsorted batches, merges
   with other digests by a bottom-up merge of sorted runs, and estimates quantiles. An online digest puts a write buffer
   of 32 observations in front of it. Every merge is proved equal to one reference: sort all inputs stably by mean, then
   close a cluster whenever the running weight would pass the limit of the scale function. The laws (what is conserved,
   how large the result can be, how fine the clusters are, how good a quantile is) are proved about that reference.
   Files: `RealFacts`, `IntFacts`, `Centroids`, `ScaleFunction`, `Compression`, `Values`, `TDigest`, `RunMerge`, `TDigestMerge`,
   `DigestBounds`, `DigestGroups`, `Quantiles`, `QuantileAccuracy`, `OnlineTdigest`, `GoodmetricsExport`.
2. **Histograms.** Values are counted in decimal buckets of two significant figures, and the sparse counts become the
   explicit bounds and counts of an OpenTelemetry histogram data point. The main theorem runs from the observations to
   the wire. Files: `Bucket`, `Histogram`, `OtlpHistogram`.
3. **Gauges.** A statistic set gauge is four atomic cells. Its `observe` is four steps and its `reset` six; the model is
   a state machine over these steps, and its laws hold in every interleaving. The registry hands out shared gauges by
   group, dimensions and name and holds them weakly. Files: `StatisticSet`, `Gauge`, `GaugeRegistry`.
4. **Aggregation.** Metrics objects with guarded dimensions are filed in a three-level map, which is drained from time
   to time. The map is proved to be the group-by of everything received since the last drain. Files: `Folds`, `Options`,
   `Types`, `Metrics`, `Aggregation`, `Aggregator`, `AggregatorRuns`, `AggregatorEntries`, `GoodmetricsBatch`.

Objects that the source updates in place are classes whose methods are tied to a value or to the list of what they have
seen (`State`, `Histogram`, `StatisticSetGauge`, `SumGauge`, `GaugeFactory`, `Metrics`, `Aggregator`); the merges of
`merge_digests` work on an array. Long loops of the source are split into a method of their own.

## Where the code does less than one would expect

Each of these is proved, with the exact condition under which the expected property holds, or with the exact rule that
holds in its place.

- `merge_digests` starts its limit one step behind, unlike `merge_sorted`, and can return `max_size + 1` centroids. It
  stays within `max_size` for all inputs exactly when `max_size` is 1.
- `merge_digests` of digests without centroids has the default `max_size` of 100 whatever the inputs had. It keeps the
  `max_size` of the first digest exactly when there is some centroid or that is 100 anyway.
- `merge_sorted` does not check that its values ascend. Count and sum are exact in any order; the minimum is exactly when
  the first value is a least one or the digest has a minimum as small already, and the maximum likewise.
- Quantile estimates can go down as the quantile grows. They never do exactly when no gap between neighbouring means,
  unless it is zero, is smaller than the average of the gaps next to it.
- The comments in `bucket.rs` speak of rounding toward zero; the code rounds away from zero. An exported histogram is
  therefore exact at every bound exactly when no negative observation was moved by its bucket.
- The lower bound of minus a power of ten (from 100 on) is not itself a bucket: -100 has the bound -101.
- For values in [-92·10^17, -91·10^17) the bucket fits 64 bits and its lower bound does not. All bounds of an export fit
  exactly when all observations lie in [-91·10^17, 92·10^17].
- A gauge report subtracts the count it loaded but reports the count it found when subtracting, so an increment that
  lands in between is reported twice. Totals are exact exactly when the schedule has no such increment.
- An observe that falls inside a reset is counted by two reports, while its value may be in the sum of one or of both;
  a reset inside an observe reports a count without its value. What goes where is proved for every place.
- An interval of a sum gauge is reported exactly when its values do not cancel out.
- Observations through the handles of a gauge are lost exactly when its last handle goes before they are reported.
- The documentation says the last write of a dimension wins. Of several guards with one name the earliest wins, and a
  guard wins over a plain dimension written later.
- Names are compared together with the form they are kept in, so a static and an owned name of the same text are
  different keys. On the goodmetrics wire both become the same text, and one of the two entries is lost. None is lost
  exactly when no two names in the same map share a text.
- A window keeps of each key the measurements of the kind that came first in it. Over a run the counts of a key are
  conserved exactly when no window ignored a value for its kind.
- An unsigned value from 2^63 on is a negative value for a histogram, but not for a sketch.

## Model

| member | source | states |
|---|---|---|
| `ScaleFunction.ScaleEnds` | goodmetrics/src/aggregation/tdigest.rs:218-226 | the scale runs from 0 at k = 0 to exactly 1 at k = max_size |
| `ScaleFunction.ScaleIsQuadratic` | goodmetrics/src/aggregation/tdigest.rs:218-226 | k clusters of d have 2(k/d)² of the weight up to the middle, and the scale is symmetric about it |
| `ScaleFunction.LastStep` | goodmetrics/src/aggregation/tdigest.rs:218-226 | the limit before the last leaves 2/d² of the weight to the last cluster |
| `ScaleFunction.ScaleIncreases` | goodmetrics/src/aggregation/tdigest.rs:218-226 | the scale is strictly increasing on [0, d], across the switch of branches at one half |
| `ScaleFunction.ScaleStep` | goodmetrics/src/aggregation/tdigest.rs:218-226 | one step of the scale is at most 2/d everywhere and at most (4k+2)/d² for a cluster k steps away from either tail |
| `Compression.CompressionIsUnique` | goodmetrics/src/aggregation/tdigest.rs:272-331 | only one clustering of a list obeys the rule of the loop (each cluster takes inputs while the running weight is within its limit), and it is the reference result |
| `Compression.CompressObeysRule` | goodmetrics/src/aggregation/tdigest.rs:272-331 | the reference result obeys that rule |
| `Compression.ClustersConserve` | goodmetrics/src/aggregation/tdigest.rs:308-326 | after any number of clusters, their weight and their mean times weight are those of the inputs they cover |
| `Compression.CompressionConserves` | goodmetrics/src/aggregation/tdigest.rs:272-337 | total weight and total mean times weight survive a compression, weights stay whole numbers, and it is empty only for no input |
| `Compression.ClusterBetweenInputs` | goodmetrics/src/aggregation/tdigest.rs:308-326 | each output mean lies between the first and the last input of its consecutive run |
| `Compression.CompressionKeepsOrder` | goodmetrics/src/aggregation/tdigest.rs:333-334 | outputs of sorted inputs are already sorted, so the final sort changes nothing |
| `Compression.CompressionKeepsRange` | goodmetrics/src/aggregation/tdigest.rs:308-326 | means never leave the range of the input means |
| `Compression.FullBoundIsLast` | goodmetrics/src/aggregation/tdigest.rs:304-331 | the cluster whose limit is the whole weight is the last one |
| `Compression.ClusterRoom` | goodmetrics/src/aggregation/tdigest.rs:304-331 | a cluster holds one input or took in, after its first, less weight than the room between its limit and the one before |
| `TDigests.RunCompresses` | goodmetrics/src/aggregation/tdigest.rs:272-332 | the streaming pass with its deferred additions computes exactly the reference clusters and the total of all inputs |
| `TDigests.RunStreams` | goodmetrics/src/aggregation/tdigest.rs:304-326 | at every point of the pass the locals describe finished clusters, the open cluster and its pending weight and total |
| `TDigests.AddPools` | goodmetrics/src/aggregation/tdigest.rs:43-52 | absorbing the pending total and weight turns the first centroid of a run into the weighted mean of the run and returns the total of the run |
| `TDigests.ArrangedFacts` | goodmetrics/src/aggregation/tdigest.rs:279-302 | the inputs of a merge are a sorted permutation of the new values and the old centroids, with their joint weight and total |
| `TDigests.CompressedFacts` | goodmetrics/src/aggregation/tdigest.rs:251-337 | a compression under these limits keeps order, weight, total and whole weights, and has at most max_size clusters, one more for a lagging limit |
| `TDigests.AbsorbKeepsInvariant` | goodmetrics/src/aggregation/tdigest.rs:251-337 | merging values keeps the whole class invariant, adds exactly the number of values to the count and their sum to the sum, makes min and max the extremes of the old ones and the values, and has at most max_size centroids |
| `TDigests.AbsorbIgnoresArrival` | goodmetrics/src/aggregation/tdigest.rs:240-249 | the digest after a batch does not depend on the order of the batch |
| `TDigests.InterleavedIsArranged` | goodmetrics/src/aggregation/tdigest.rs:279-302 | taking the smaller head of the two streams, values first on ties, is the stable sort of ascending values and the centroids |
| `TDigests.TiesInOrder` | goodmetrics/src/aggregation/tdigest.rs:279-302 | on equal means the values are merged before the old centroids, and each in the order they had |
| `TDigests.InOrderIfAscending` | goodmetrics/src/aggregation/tdigest.rs:251-337 | values handed over in ascending order are absorbed as their batch |
| `TDigests.InOrderExtremes` | goodmetrics/src/aggregation/tdigest.rs:259-268 | values in any order keep count and sum exact; the recorded minimum is the true one if and only if the first value is a least one or the digest already has a minimum as small, and likewise the maximum for the last value |
| `TDigests.ExtremesCover` | goodmetrics/src/aggregation/tdigest.rs:389-409 | min and max of a combination enclose the extremes and all means of all non-empty inputs |
| `TDigests.ExtremesAttained` | goodmetrics/src/aggregation/tdigest.rs:389-409 | min and max of a combination are those of some of its non-empty inputs |
| `TDigests.CombineKeepsInvariant` | goodmetrics/src/aggregation/tdigest.rs:380-472 | combining digests keeps the class invariant and adds up counts and sums |
| `TDigests.CombineSize` | goodmetrics/src/aggregation/tdigest.rs:386-471 | combining uses the max_size of the first digest and yields at most one centroid more |
| `TDigests.AllCentroidsConcat` | goodmetrics/src/aggregation/tdigest.rs:388-409 | the centroids of several digests follow each other in the order of the digests |
| `TDigests.CombineMaxSize` | goodmetrics/src/aggregation/tdigest.rs:380-386 | the result has the max_size of the first digest if and only if there is some centroid or that max_size is the default of 100 |
| `TDigests.EmptyLosesMaxSize` | goodmetrics/src/aggregation/tdigest.rs:380-384 | an empty digest of max_size 7 combines to one of max_size 100 |
| `Centroids.MergeOfSorts` | goodmetrics/src/aggregation/tdigest.rs:339-377 | the stable merge of two stably sorted runs is the stable sort of both together |
| `Centroids.SortIsStable` | goodmetrics/src/aggregation/tdigest.rs:339-377 | sorting keeps centroids of the same mean in their order |
| `RunMerging.MergeHeads` | goodmetrics/src/aggregation/tdigest.rs:345-360 | the three-way comparison loop takes the stable merge up to the point where one run is used up |
| `RunMerging.Drain` | goodmetrics/src/aggregation/tdigest.rs:362-370 | the rest of a run is appended unchanged |
| `RunMerging.WriteBack` | goodmetrics/src/aggregation/tdigest.rs:372-376 | the merged list overwrites the slice, and nothing else |
| `RunMerging.ExternalMerge` | goodmetrics/src/aggregation/tdigest.rs:339-377 | in place, [first, last) becomes the stable merge of [first, middle) and [middle, last), and nothing outside is touched |
| `RunMerging.MergePairs` | goodmetrics/src/aggregation/tdigest.rs:413-425 | one round over runs of any length, empty ones included, sorts every block of twice the size |
| `RunMerging.MergeAllRuns` | goodmetrics/src/aggregation/tdigest.rs:411-428 | the rounds end, and leave the array the stable sort by mean of what it held, for any number of runs |
| `DigestMerging.NextInput` | goodmetrics/src/aggregation/tdigest.rs:279-302 | the next input of the two streams is the next one of the sorted list |
| `DigestMerging.CompressStreams` | goodmetrics/src/aggregation/tdigest.rs:267-332 | the loop over the two streams computes the reference clusters and the exact sum |
| `DigestMerging.MergeSorted` | goodmetrics/src/aggregation/tdigest.rs:251-337 | for values in any order, merge_sorted is the pass over the two streams with the first value taken for the least and the last for the greatest, every field included; for ascending values that is the reference for a batch |
| `DigestMerging.MergeUnsorted` | goodmetrics/src/aggregation/tdigest.rs:240-249 | merge_unsorted is the same reference for values in any order |
| `DigestMerging.Gather` | goodmetrics/src/aggregation/tdigest.rs:380-409 | collects the centroids of the non-empty digests in order, where each run starts, the total count and the extremes |
| `DigestMerging.CompressArray` | goodmetrics/src/aggregation/tdigest.rs:430-471 | the compression in place, with its limit one step behind, computes the reference clusters and the exact sum |
| `DigestMerging.MergeDigests` | goodmetrics/src/aggregation/tdigest.rs:380-472 | merge_digests is the reference for combining digests, every field included; with no centroid at all it is the default digest, whatever max_size the inputs had |
| `DigestBounds.AbsorbedBelowRoom` | goodmetrics/src/aggregation/tdigest.rs:272-331 | in a merge of values the weight a cluster absorbs after its first input is less than (q(j+1)-q(j)) times the count |
| `DigestBounds.ClusterResolution` | goodmetrics/src/aggregation/tdigest.rs:218-331 | hence less than 2/max_size of the count, and less in proportion to the distance from the nearer tail |
| `DigestBounds.AbsorbClusters` | goodmetrics/src/aggregation/tdigest.rs:251-337 | the centroids of a merge of values are the clusters that the rule of the loop makes of the sorted inputs, and each of them absorbs less than its room |
| `DigestBounds.SecondClusterIsSingle` | goodmetrics/src/aggregation/tdigest.rs:433-463 | in merge_digests the first two clusters share one limit, so the second is always a single input |
| `DigestBounds.LaggedClusterRoom` | goodmetrics/src/aggregation/tdigest.rs:433-463 | in merge_digests every later cluster absorbs after its first input less than the scale gives to the cluster before it; the first has its own room and the second none |
| `DigestBounds.CombineClusters` | goodmetrics/src/aggregation/tdigest.rs:380-472 | the centroids of a combination are the clusters that the rule with limits one step behind makes of all centroids sorted; the second is a single one of them, and later ones absorb less than the room of the cluster before |
| `DigestBounds.HeavyAndLightCompress` | goodmetrics/src/aggregation/tdigest.rs:430-471 | for every max_size from 2 on there are digests, all built by absorbing observations, whose combination has max_size + 1 centroids |
| `DigestBounds.MergeDigestsHoldsMaxSize` | goodmetrics/src/aggregation/tdigest.rs:380-472 | merge_digests always stays within max_size if and only if max_size is 1 |
| `Quantiles.CoverIsUnique` | goodmetrics/src/aggregation/tdigest.rs:488-521 | at most one centroid covers a rank |
| `Quantiles.ScanBackward` | goodmetrics/src/aggregation/tdigest.rs:493-502 | the scan from the last centroid stops at the centroid that covers the rank, with the weight before it |
| `Quantiles.ScanForward` | goodmetrics/src/aggregation/tdigest.rs:508-520 | the scan from the first centroid stops at the centroid that covers the rank, with the weight before it |
| `Quantiles.EstimateQuantile` | goodmetrics/src/aggregation/tdigest.rs:475-540 | the estimate is the reference quantile, whichever scan runs; the rows below say what that is |
| `Quantiles.QuantileEnds` | goodmetrics/src/aggregation/tdigest.rs:476-492 | quantiles at or beyond the ends are the recorded minimum and maximum, and those of an empty digest 0 |
| `Quantiles.CentreIsMean` | goodmetrics/src/aggregation/tdigest.rs:523-539 | the quantile whose rank is in the middle of the weight of a centroid is the mean of the centroid |
| `Quantiles.MidpointIsAverage` | goodmetrics/src/aggregation/tdigest.rs:523-539 | between two quantiles in the same centroid, neither of which is cut off at a neighbouring mean, the one in the middle is estimated at the average of the two estimates |
| `Quantiles.EvenlySpaced` | goodmetrics/src/aggregation/tdigest.rs:475-540 | for n >= 2 unit centroids with means a, a + h, ..., quantile q is a + (qn - 1/2)h kept between the first and the last mean |
| `Quantiles.EstimateBetweenNeighbours` | goodmetrics/src/aggregation/tdigest.rs:523-539 | an estimate lies between the means of the neighbouring centroids, or min and max at the ends |
| `Quantiles.QuantileBetweenExtremes` | goodmetrics/src/aggregation/tdigest.rs:475-540 | every quantile of a non-empty digest lies between min and max |
| `Quantiles.FarEstimatesInOrder` | goodmetrics/src/aggregation/tdigest.rs:523-539 | estimates two or more centroids apart are in order |
| `Quantiles.EstimateRises` | goodmetrics/src/aggregation/tdigest.rs:537-539 | within one centroid estimates do not go down |
| `Quantiles.SeamIsOrder` | goodmetrics/src/aggregation/tdigest.rs:523-539 | a gap passes that test if and only if the estimate at the end of the centroid before it is at most the one at the start of the centroid after it |
| `Quantiles.QuantilesInOrderIffSeamless` | goodmetrics/src/aggregation/tdigest.rs:475-540 | estimates never go down as q grows if and only if each gap between neighbouring means is zero or at least the average of the gaps before and after it, where at an end the gap itself stands in for the missing one |
| `Quantiles.BrokenSeam` | goodmetrics/src/aggregation/tdigest.rs:475-540 | each gap that fails this gives two quantiles in the wrong order |
| `QuantileAccuracy.EstimateNearRank` | goodmetrics/src/aggregation/tdigest.rs:240-540 | end to end, for any batch absorbed by an empty digest: a quantile estimate lies between two observations whose ranks in the sorted batch are less than two cluster spans (1 + 2n/max_size) from the rank asked for |
| `QuantileAccuracy.FourObservationsAbsorbed` | goodmetrics/src/aggregation/tdigest.rs:240-337 | absorbing 0, 10, 11 and 12 keeps four centroids |
| `QuantileAccuracy.AbsorbedEstimatesGoDown` | goodmetrics/src/aggregation/tdigest.rs:475-540 | in that digest some quantile is estimated larger than a later one |
| `DigestGroups.PoolHoldsGroups` | goodmetrics/src/aggregation/tdigest.rs:43-52 | a cluster has the size and the total of the groups of its inputs together |
| `DigestGroups.CompressionGroups` | goodmetrics/src/aggregation/tdigest.rs:272-332 | a compression regroups the observations and loses none |
| `DigestGroups.MeanOfGroup` | goodmetrics/src/aggregation/tdigest.rs:7-11 | the mean of a centroid is the mean of its group |
| `DigestGroups.AbsorbDescribes` | goodmetrics/src/aggregation/tdigest.rs:251-337 | absorbing a batch: the centroids partition the old and the new observations into groups of exactly their weights and means, and count, sum, min and max are those of all of them |
| `DigestGroups.InOrderPartitions` | goodmetrics/src/aggregation/tdigest.rs:251-337 | values handed to merge_sorted in any order: no observation is lost from the partition, the centroids ascend, and there are at most max_size of them |
| `DigestGroups.CombineDescribes` | goodmetrics/src/aggregation/tdigest.rs:380-472 | the same for combining digests: the result describes the observations of all of them together |
| `OnlineTdigests.State.RecordObservation` | goodmetrics/src/aggregation/online_tdigest.rs:126-133 | the observation joins the buffer, and the 32nd flushes it; the buffer index is below 32 after every call |
| `OnlineTdigests.WaitingAfter` | goodmetrics/src/aggregation/online_tdigest.rs:126-145 | after any observations the buffer holds their number modulo 32, and the digest is untouched before the 32nd |
| `OnlineTdigests.State.FlushState` | goodmetrics/src/aggregation/online_tdigest.rs:136-145 | what waits is merged into the digest and the buffer is empty |
| `OnlineTdigests.State.GetSnapshot` | goodmetrics/src/aggregation/online_tdigest.rs:120-123 | the snapshot includes what waits, and stays |
| `OnlineTdigests.State.GetSnapshotAndReset` | goodmetrics/src/aggregation/online_tdigest.rs:113-117 | the snapshot, then the digest is zeroed in place |
| `OnlineTdigests.State.ResetToDefault` | goodmetrics/src/aggregation/online_tdigest.rs:74-79 | the snapshot, then a fresh default digest |
| `OnlineTdigests.NextRefines` | goodmetrics/src/aggregation/online_tdigest.rs:58-145 | each call keeps the state in step with a plain list of the observations since the last reset |
| `OnlineTdigests.FreshRunRefinesList` | goodmetrics/src/aggregation/online_tdigest.rs:58-145 | over any run of observe, get and both resets, every snapshot has at most 100 centroids, which partition the observations since the last reset into groups of their weights and means, and has their count, sum, min and max |
| `OnlineTdigests.ResetPathsAgree` | goodmetrics/src/aggregation/online_tdigest.rs:74-117 | two runs that differ only in which reset they use give identical snapshots, except for min and max of empty ones |
| `GoodmetricsExport.Export` | goodmetrics/src/downstream/goodmetrics_downstream.rs:250-261 | exporting resets the state in place; of whatever observations the state stood for, the shipped digest says what they were, and the state then stands for none |
| `GoodmetricsExport.WireOfSummary` | goodmetrics/src/downstream/goodmetrics_downstream.rs:250-270 | the shipped centroids ascend and split the observations into groups with exactly the shipped weights as sizes and the shipped means as means; shipped count and sum are theirs, and shipped min and max the least and the greatest of them |
| `GoodmetricsExport.ShippedWeightsAddUp` | goodmetrics/src/downstream/goodmetrics_downstream.rs:250-270 | no weight is changed by truncation, and the shipped weights add up to the shipped count, the number of observations |
| `Buckets.BucketOdd` | goodmetrics/src/aggregation/bucket.rs:2-16 | bucketing is odd |
| `Buckets.RoundsUpToStep` | goodmetrics/src/aggregation/bucket.rs:2-33 | a value above (c-1)·10^p and at most c·10^p, with c up to 100 and above 10 if p > 0, has the bucket c·10^p and the lower bound (c-1)·10^p |
| `Buckets.BucketAwayFromZero` | goodmetrics/src/aggregation/bucket.rs:11-13 | rounding is away from zero and keeps the sign |
| `Buckets.BucketIdempotent` | goodmetrics/src/aggregation/bucket.rs:2-16 | a bucket is its own bucket |
| `Buckets.BucketMonotone` | goodmetrics/src/aggregation/bucket.rs:2-16 | bucketing keeps the order of values |
| `Buckets.Preimage` | goodmetrics/src/aggregation/bucket.rs:2-33 | the values of a bucket b > 0 are exactly those in (below(b), b] |
| `Buckets.BelowIsPrevious` | goodmetrics/src/aggregation/bucket.rs:19-33 | for b >= 0, below(b) is the greatest bucket smaller than b |
| `Buckets.BelowNegative` | goodmetrics/src/aggregation/bucket.rs:19-33 | for b < 0, below(b) is a bucket if and only if b is not minus a power of ten from 100 on; no bucket lies between the two in any case |
| `Buckets.BelowMinusPower` | goodmetrics/src/aggregation/bucket.rs:19-33 | below(-10^k) is -10^k - 10^(k-2) for k >= 2 |
| `Buckets.BelowOfBucket` | goodmetrics/src/aggregation/bucket.rs:19-33 | a value and its bucket have the same lower bound, which is smaller than the bucket |
| `Buckets.BucketError` | goodmetrics/src/aggregation/bucket.rs:2-16 | the error |bucket(v)| - |v| is non-negative and less than a tenth of |v| |
| `Buckets.BucketFits` | goodmetrics/src/aggregation/bucket.rs:2-16 | the bucket fits i64 if and only if |v| <= 92·10^17 |
| `Buckets.BelowFits` | goodmetrics/src/aggregation/bucket.rs:19-33 | the lower bound fits i64 if and only if -91·10^17 <= v <= 93·10^17, so the lowest bucket that fits has a lower bound that does not |
| `Types.AsI64` | goodmetrics/src/aggregation/mod.rs:79-80 | an unsigned value keeps its 64 bits when it becomes signed |
| `Types.Truncated` | goodmetrics/src/types.rs:276-287 | a floating point observation is cut off toward zero and kept within i64 |
| `Types.ValueMeasures` | goodmetrics/src/types.rs:276-287 | an observation counts as v if and only if v is the integer itself, the signed value with the same 64 bits, or the float without its fraction or the nearest end of the 64-bit range |
| `Types.ValuesSpread` | goodmetrics/src/aggregation/mod.rs:68-94 | the values of a distribution in a histogram: the integer, the signed value with the same 64 bits (timers too), or the collection |
| `Types.RealValuesSketch` | goodmetrics/src/aggregation/mod.rs:96-111 | the values of a distribution in a sketch: the same, but unsigned ones unchanged |
| `Types.ValuesAgree` | goodmetrics/src/aggregation/mod.rs:68-111 | histograms and sketches see the same value if and only if it is not an unsigned value from 2^63 on |
| `Histograms.Histogram.Accumulate` | goodmetrics/src/aggregation/histogram.rs:20-27 | one more value in the bucket of v, in place |
| `Histograms.Histogram.Absorb` | goodmetrics/src/aggregation/mod.rs:68-94 | every value of a distribution is recorded, unsigned ones reinterpreted as signed |
| `Histograms.TallyCounts` | goodmetrics/src/aggregation/histogram.rs:20-27 | each bucket is present exactly if it has values, with the number of its values |
| `Histograms.TallyIgnoresOrder` | goodmetrics/src/aggregation/histogram.rs:20-27 | the histogram does not depend on the order of arrival |
| `Histograms.TallyTotal` | goodmetrics/src/aggregation/histogram.rs:20-27 | the counts add up to the number of values |
| `Histograms.BucketsUpToSize` | goodmetrics/src/aggregation/bucket.rs:7-15 | there are 101 + 90(D-2) buckets from 0 to 10^D |
| `Histograms.TallyIsSmall` | goodmetrics/src/aggregation/histogram.rs:20-27 | after any number of values in [0, 10^D], D >= 2, the histogram has at most that many buckets |
| `OtlpHistograms.PopLeast` | goodmetrics/src/downstream/opentelemetry_downstream.rs:462-467 | popping the heap yields the least bucket with its count |
| `OtlpHistograms.ShowsNext` | goodmetrics/src/downstream/opentelemetry_downstream.rs:467-489 | one round keeps bounds increasing, every drained bucket present right above its own lower bound, and zero counts at inserted bounds |
| `OtlpHistograms.DrainHeap` | goodmetrics/src/downstream/opentelemetry_downstream.rs:462-490 | the drain shows every bucket of the histogram with its count right above its own lower bound, and nothing else but such lower bounds with zero counts |
| `OtlpHistograms.AsOtelHistogram` | goodmetrics/src/downstream/opentelemetry_downstream.rs:447-507 | the data point: these bounds and counts, a zero for the last open interval, the total count and the range |
| `OtlpHistograms.ObserveAndExport` | goodmetrics/src/downstream/opentelemetry_downstream.rs:447-507 | observing any values and exporting them yields such a data point for their tally |
| `OtlpHistograms.ExportWellFormed` | proto/opentelemetry/proto/metrics/v1/metrics.proto:401-425 | what the protocol asks for, for any observations: strictly increasing bounds, one count more than bounds, counts adding up to count, which is the number of observations; first and last count are zero |
| `OtlpHistograms.ExportOfNothing` | goodmetrics/src/downstream/opentelemetry_downstream.rs:447-507 | of no observations: one interval with nothing in it, and zeros |
| `OtlpHistograms.PrefixCountsBuckets` | proto/opentelemetry/proto/metrics/v1/metrics.proto:426-434 | the counts up to a bound add up to the bucketed observations at or below it |
| `OtlpHistograms.ExportedRange` | goodmetrics/src/downstream/opentelemetry_downstream.rs:456-457 | exported min and max are the buckets of the least and the greatest observation |
| `OtlpHistograms.PrefixAtLeast` | proto/opentelemetry/proto/metrics/v1/metrics.proto:426-434 | the counts up to a bound are never fewer than the observations at or below it, and equal exactly if no observation was rounded across the bound |
| `OtlpHistograms.FaithfulIffNegativesUnmoved` | proto/opentelemetry/proto/metrics/v1/metrics.proto:426-434 | the counts up to every bound are exactly the observations at or below it if and only if every negative observation is its own bucket; for the code this speaks of observations whose bounds fit i64, see the next row |
| `OtlpHistograms.ExportFits` | goodmetrics/src/downstream/opentelemetry_downstream.rs:467-489 | all exported bounds fit i64 if and only if all observations lie in [-91·10^17, 92·10^17] |
| `OtlpHistograms.IntervalCounts` | proto/opentelemetry/proto/metrics/v1/metrics.proto:426-434 | in that case each count is the number of observations in its upper-inclusive interval |
| `OtlpHistograms.MovedNegative` | goodmetrics/src/aggregation/bucket.rs:11-13 | -101 is bucketed as -110 |
| `GoodmetricsBatches.Render` | goodmetrics/src/downstream/goodmetrics_downstream.rs:140-147 | a map by name becomes a map by text: one entry for each text, which is the entry of some name with that text |
| `GoodmetricsBatches.RenderLossless` | goodmetrics/src/downstream/goodmetrics_downstream.rs:140-147 | no entry is lost if and only if no two names share a text, and then each text has the entry of its name |
| `GoodmetricsBatches.AsDatums` | goodmetrics/src/downstream/goodmetrics_downstream.rs:129-150 | one datum for each dimension position of a metric |
| `GoodmetricsBatches.RenderedShows` | goodmetrics/src/downstream/goodmetrics_downstream.rs:140-167 | each dimension arrives on the wire as the text, number or boolean it is, under the text of its name |
| `GoodmetricsBatches.BatchAggregations` | goodmetrics/src/downstream/goodmetrics_downstream.rs:111-127 | the batch has exactly one datum for each dimension position of each metric in the map |
| `StatisticSets.StatsDescribe` | goodmetrics/src/aggregation/statistic_set.rs:27-45 | after any values: how many, their sum, the least and the greatest of them; the default for none |
| `StatisticSets.StatsAreSummary` | goodmetrics/src/aggregation/statistic_set.rs:27-45 | the same as the relation used in reports and entries: count, sum, least and greatest |
| `StatisticSets.StatsIgnoreOrder` | goodmetrics/src/aggregation/statistic_set.rs:39-45 | statistics and sums do not depend on the order of the values |
| `StatisticSets.SumOfConcat` | goodmetrics/src/aggregation/sum.rs:15-17 | sums add up over parts |
| `StatisticSets.SumOfOne` | goodmetrics/src/aggregation/sum.rs:15-17 | the sum of nothing is 0 and of one value that value |
| `Gauges.AdvanceAccounts` | goodmetrics/src/gauge.rs:175-198 | every single atomic step of any observer and of the reporter keeps all accounting laws |
| `Gauges.LateIncrements` | goodmetrics/src/gauge.rs:186-198 | the late count of the books is not zero if and only if the schedule has an increment between the load and the subtraction of a reset that finishes |
| `Gauges.CountsAccounted` | goodmetrics/src/gauge.rs:175-198 | in every interleaving of any observers with the reporter: reported counts plus what is left are the increments plus exactly those that landed between a load and its subtraction; the count cell is never negative |
| `Gauges.CountsExactIffNoneLate` | goodmetrics/src/gauge.rs:186-198 | no increment is lost, and the total is exact if and only if the schedule has no increment between the load and the subtraction of a finished reset |
| `Gauges.SumsAccounted` | goodmetrics/src/gauge.rs:175-198 | the same law for the sum, with what a reset in progress holds in hand |
| `Gauges.ExtremesAccounted` | goodmetrics/src/gauge.rs:175-198 | the least value ever written to min is the least of what was reported, is in hand or is left; likewise the greatest |
| `Gauges.NeverUnderflows` | goodmetrics/src/gauge.rs:196 | the count cell is never below the loaded count when it is subtracted |
| `Gauges.LateIncrementCountsTwice` | goodmetrics/src/gauge.rs:186-198 | a run in which two observations are reported and one of them is left again |
| `Gauges.UndisturbedObserve` | goodmetrics/src/gauge.rs:175-181 | after any run, an observe that nothing interrupts accumulates its value in all four cells |
| `Gauges.UndisturbedReset` | goodmetrics/src/gauge.rs:186-198 | after any run, a reset that nothing interrupts reports exactly what the cells hold and leaves them as new, or without increments reports and changes nothing |
| `Gauges.PartialObserve` | goodmetrics/src/gauge.rs:175-181 | after any run, an observe has changed after its k-th step exactly the first k of count, sum, min and max |
| `Gauges.ChoppedObserve` | goodmetrics/src/gauge.rs:175-198 | a reset in the middle of an observe reports one more in the count, and the value in as many of sum, min and max as there were steps |
| `Gauges.ObserveInsideReset` | goodmetrics/src/gauge.rs:175-198 | an observe in the middle of a reset is counted by that report and again by the next; which of sum, min and max have its value in this report and which in the cells afterwards is said for each of the five places it may fall |
| `Gauges.StatisticSetGauge.Observe` | goodmetrics/src/gauge.rs:175-181 | one more observation since the last report |
| `Gauges.StatisticSetGauge.Reset` | goodmetrics/src/gauge.rs:186-198 | used by one thread at a time: the statistics of the observations since the last report, if there are any, and none of them again |
| `Gauges.SumGaugeExact` | goodmetrics/src/gauge.rs:212-227 | in every interleaving the sum gauge reports each interval between swaps exactly, leaving out intervals of sum zero, and loses nothing |
| `Gauges.SumGauge.Observe` | goodmetrics/src/gauge.rs:212-214 | one more value since the last report |
| `Gauges.SumGauge.Reset` | goodmetrics/src/gauge.rs:219-227 | the sum since the last report, unless it is zero |
| `GaugeRegistry.GaugeFactory.GetGauge` | goodmetrics/src/gauge_factory.rs:171-195 | the gauge that all live handles of the key share, or a new one if there is none; no other key changes |
| `GaugeRegistry.GaugeFactory.AddGauge` | goodmetrics/src/gauge_group.rs:35-45 | a new gauge replaces a dead entry or is added |
| `GaugeRegistry.GaugeFactory.CloneHandle` | goodmetrics/src/gauge.rs:81-84 | one more handle to the same gauge, and nothing else |
| `GaugeRegistry.GaugeFactory.DropHandle` | goodmetrics/src/gauge.rs:81-84 | one handle less, and with the last handle the gauge is gone |
| `GaugeRegistry.GaugeFactory.ObserveThrough` | goodmetrics/src/gauge.rs:86-96 | an observation through a handle of the right kind counts for its key only; one of the wrong kind counts for nothing |
| `GaugeRegistry.GaugeFactory.AggregateAndReset` | goodmetrics/src/gauge_factory.rs:224-238 | for every key the entry of the report is: without handles none; for a statistic set the number, sum, least and greatest of what was observed since the last report, none if nothing was; for a sum exactly it, none if zero; for a histogram exactly the values; no empty level; exactly the entries whose gauge is gone are removed |
| `GaugeRegistry.OneGaugePerKey` | goodmetrics/src/gauge_group.rs:21-47 | two live gauges of one key are the same gauge |
| `GaugeRegistry.Added` | goodmetrics/src/gauge_group.rs:30-45 | registering a new gauge keeps the registry sound and changes its key only |
| `GaugeRegistry.Changed` | goodmetrics/src/gauge_group.rs:21-47 | a change of one gauge keeps the registry sound and changes its key only |
| `GaugeRegistry.Dropped` | goodmetrics/src/gauge_group.rs:51-55 | a gauge that goes away keeps the registry sound and changes its key only |
| `GaugeRegistry.PrunedRefs` | goodmetrics/src/gauge_group.rs:51-55 | pruning keeps an entry exactly if its gauge is alive, and no empty dimension position |
| `GaugeRegistry.AfterReportIs` | goodmetrics/src/gauge_group.rs:50-90 | for one key: what is reported, what is left, and whether the entry stays |
| `GaugeRegistry.Call` | goodmetrics/src/gauge_factory.rs:171-238 | one call on a factory moves every key as its specification says, and a report says of every key what was observed |
| `GaugeRegistry.Perform` | goodmetrics/src/gauge_factory.rs:171-238 | over any run of calls a factory has for every key exactly the handles and unreported observations of its specification, and each of its reports says of every key what was observed since the report before |
| `GaugeRegistry.HandlesCounted` | goodmetrics/src/gauge.rs:81-84 | over any run, a key is live exactly while more handles were handed out and cloned than given back |
| `GaugeRegistry.ExactlyOnce` | goodmetrics/src/gauge_group.rs:21-90 | over any run of a factory, the observations through the handles of a key are, in order and each once, in the intervals that its reports show, each interval in a report of its own, in those lost with the last handle, or not reported yet |
| `GaugeRegistry.LostIffLastHandleGoes` | goodmetrics/src/gauge_group.rs:50-55 | some observation is lost if and only if the last handle of its key goes while something is not reported yet |
| `GaugeRegistry.DroppedBeforeReport` | goodmetrics/src/gauge_group.rs:50-55 | a run that observes 7, drops the only handle, and reports the 7 nowhere |
| `Metrics.EarliestGuardWins` | goodmetrics/src/metrics.rs:289-300 | a guard beats a plain dimension of its name, and of several guards of one name the earliest one beats the others |
| `Metrics.UnguardedStays` | goodmetrics/src/metrics.rs:289-300 | a dimension without a guard is as it was |
| `Metrics.Metrics.RedeemLast` | goodmetrics/src/metrics.rs:92-98 | the name of the last guard gets the value of its cell, unless suppressed; the guard is gone, its cell dead, and the effective dimensions are what they were |
| `Metrics.Metrics.Drain` | goodmetrics/src/metrics.rs:289-300 | afterwards each name has the value of the cell of its earliest guard and a name without a guard what it had; suppressed, all dimensions are as before; every guard is consumed |
| `Metrics.Metrics.Sum` | goodmetrics/src/metrics.rs:166-181 | sums of one name add up; a name that measures something else keeps it; all other names are untouched |
| `Metrics.Metrics.GuardedDimension` | goodmetrics/src/metrics.rs:202-212 | a guard with a cell of its own, which a suppressed object does not look at |
| `Aggregations.FirstKindWins` | goodmetrics/src/pipeline/aggregator.rs:330-441 | a name collects exactly the measurements of the kind of its first one: their statistics, sum, histogram or sketch; others are ignored |
| `Aggregations.OfKindNext` | goodmetrics/src/pipeline/aggregator.rs:330-441 | one more measurement: absorbed if of the same kind, ignored otherwise |
| `Aggregations.CollectedIgnoresOrder` | goodmetrics/src/pipeline/aggregator.rs:330-441 | for measurements of one kind, statistics, sums and histograms do not depend on their order |
| `Aggregators.AccumulateStatisticSet` | goodmetrics/src/pipeline/aggregator.rs:397-420 | an entry that has the count, sum, least and greatest of some values has those of one value more, the one the observation counts as; a new name starts with none; an aggregation of another kind ignores the observation |
| `Aggregators.AccumulateSum` | goodmetrics/src/pipeline/aggregator.rs:422-441 | a new name starts at zero; an aggregation of another kind ignores the value |
| `Aggregators.AccumulateDistribution` | goodmetrics/src/pipeline/aggregator.rs:330-395 | a new name starts with the aggregation of the mode; any of the three distribution aggregations takes the values; others ignore them |
| `Aggregators.AccumulateOne` | goodmetrics/src/pipeline/aggregator.rs:287-312 | each measurement goes to the aggregation of its kind |
| `Aggregators.AccumulateAll` | goodmetrics/src/pipeline/aggregator.rs:287-312 | whatever order the measurements are taken in, each name has absorbed its measurement once |
| `Aggregators.Take` | goodmetrics/src/pipeline/aggregator.rs:256-260 | the name, the measurements and the dimensions with the values of the earliest guards written over them are taken out, and the object is left drained |
| `Aggregators.FiledGroups` | goodmetrics/src/pipeline/aggregator.rs:262-312 | filing one more object keeps the map the group-by of everything received |
| `Aggregators.Aggregator.File` | goodmetrics/src/pipeline/aggregator.rs:262-312 | the same, in place, with the scratch key empty again afterwards |
| `Aggregators.Aggregator.AggregateMetrics` | goodmetrics/src/pipeline/aggregator.rs:255-313 | one more object received, under its dimensions with the values of the earliest guards written over them; the map stays the group-by of everything received |
| `Aggregators.Aggregator.ReceiveOne` | goodmetrics/src/pipeline/aggregator.rs:215-232 | returns with the first object found, or with none after sleeping exactly the time given; never sleeps longer, and polls at most once more than whole intervals fit |
| `Aggregators.Aggregator.DrainInto` | goodmetrics/src/pipeline/aggregator.rs:239-253 | no batch if nothing was received; otherwise the batcher gets the group-by of everything since the last drain and says what stays; if that is nothing a new window starts, and if it is everything the window goes on |
| `AggregatorRuns.EntryContents` | goodmetrics/src/pipeline/aggregator.rs:255-313 | an entry exists exactly if something was received for its key, and is made of the measurements of the first kind |
| `AggregatorRuns.GroupOfOne` | goodmetrics/src/pipeline/aggregator.rs:262-312 | the group of a key has of one object its measurement of that name, if name and dimensions are those of the key |
| `AggregatorRuns.GroupConcat` | goodmetrics/src/pipeline/aggregator.rs:262-312 | groups of lists of objects follow each other |
| `AggregatorEntries.StatisticsEntry` | goodmetrics/src/pipeline/aggregator.rs:397-420 | from the measurements to the entry: count, sum, least and greatest of the integers filed as observations of any form under a key whose first measurement is one |
| `AggregatorEntries.SumEntry` | goodmetrics/src/pipeline/aggregator.rs:422-441 | from the measurements to the entry: the sum of the amounts filed under a key first used for a sum |
| `AggregatorEntries.HistogramEntry` | goodmetrics/src/pipeline/aggregator.rs:330-349 | from the measurements to the entry: each bucket has the number of its values among those of the distributions filed under the key |
| `AggregatorEntries.ExponentialEntry` | goodmetrics/src/pipeline/aggregator.rs:351-374 | from the measurements to the entry: the distributions filed under the key, in order |
| `AggregatorEntries.SketchEntry` | goodmetrics/src/pipeline/aggregator.rs:376-395 | from the measurements to the entry and its wire form: groups of the values of the distributions filed under the key, with their sizes, means, count, sum, least and greatest |
| `AggregatorEntries.MeasurementsHaveValues` | goodmetrics/src/types.rs:276-287 | any measurements have such values |
| `AggregatorRuns.ArrivalOrderIrrelevant` | goodmetrics/src/pipeline/aggregator.rs:255-313 | the same objects in another order give the same statistics, sums and histograms for keys of a single kind |
| `AggregatorRuns.SketchTotalsIgnoreArrival` | goodmetrics/src/pipeline/aggregator.rs:255-313 | for sketches, the same objects in another order give the same count, sum, min and max |
| `AggregatorRuns.NothingLost` | goodmetrics/src/pipeline/aggregator.rs:239-253 | over any run every object received is, in order, in exactly one window or not drained yet |
| `AggregatorRuns.Perform` | goodmetrics/src/pipeline/aggregator.rs:177-198 | the batches of any run of receiving and draining are the group-bys of its windows |
| `AggregatorRuns.EntryTotals` | goodmetrics/src/pipeline/aggregator.rs:330-441 | in every mode, what an entry counts and adds up, and what it ignores because it is of another kind than the first, are together all values of its measurements; a histogram does not add up |
| `AggregatorRuns.WindowsAccount` | goodmetrics/src/pipeline/aggregator.rs:239-313 | over any run and for any key, batches, residual and what each window ignored for its kind are together, in count and sum, what was received |
| `AggregatorRuns.CountsConservedIffAllHeard` | goodmetrics/src/pipeline/aggregator.rs:239-313 | over any run, batches and residual together count exactly the values received for a key if and only if no window ignored one for its kind |
| `AggregatorRuns.WindowsConserve` | goodmetrics/src/pipeline/aggregator.rs:239-313 | in every mode and over any run, batches and residual together count for a key of a single kind exactly what was received for it and, unless it is a histogram, add up to its sum |
| `AggregatorRuns.SketchOnTheWire` | goodmetrics/src/downstream/goodmetrics_downstream.rs:250-270 | from measurements to the wire: what a sketched key ships says what the values distributed under it were, and the weights add up to their number |
| `AggregatorRuns.HistogramOnTheWire` | goodmetrics/src/downstream/opentelemetry_downstream.rs:447-507 | from measurements to the wire: a histogram key ships the well-formed histogram of the values distributed under it, faithful if and only if no negative one was moved by its bucket |

## Left out

- IEEE arithmetic: means, weights, sums and quantiles are exact reals; the NaN extremes of an empty digest are `None`; NaN and infinite observations are not modelled.
- `Buckets.Bucket`: uses the exact integer logarithm; the floating point logarithm and power of the code can differ from it just above large powers of ten (from about 10^15), and `abs` of the least i64 overflows before it is reached.
- Overflow of i64 and u64 counts and sums: they are unbounded integers here. Buckets and their lower bounds are the exception, where the exact ranges are proved.
- `TDigest` and `Centroid` are values here: Rust owns them and nothing aliases them. The arrays of `merge_digests` are arrays, and the centroids in its second loop are updated through the array only at the end of a cluster.
- `QuantileAccuracy.EstimateNearRank`: is about one batch absorbed by an empty digest; for a digest that was merged many times its clusters are known (`DigestGroups.AbsorbDescribes`), but the rank error of its quantiles is not bounded here.
- `TDigest::new` with its oversize branch, and all `Display` code: not used in the pipeline.
- `Histograms.Histogram.Absorb`: a timer contributes the nanoseconds it holds at that moment; the atomic cell it shares with its guard is not modelled.
- `OtlpHistograms.AsOtelHistogram`: requires that every key of the map is a bucket, which accumulation is proved to give; timestamps, attributes and the conversion of bounds to floating point are left out.
- `Gauges.CountsAccounted`: the steps of all threads are interleaved in one order; the relaxed memory ordering of the code promises such an order for each cell only, which is all that the accounting laws use of it, each being about one cell; `Gauges.ChoppedObserve` and `Gauges.ObserveInsideReset` speak of several cells and of runs in one order.
- `Gauges.ExtremesAccounted`: is about values written to the min and max cells; an observer that is between its steps has not written yet.
- `GaugeRegistry.GaugeFactory.GetGauge`: strong counts and the heap are explicit maps, one call runs at a time (the source holds a mutex), and gauges are used by one thread at a time; interleavings are the subject of `Gauges`.
- `GaugeRegistry.GaugeFactory.AggregateAndReset`: a histogram gauge is the list of values it was given and reports that list, because its histogram is in another crate, which is not part of this model.
- `Aggregators.AccumulateDistribution`: stands for three functions of the source that differ in what a new name starts with; an exponential histogram is the list of distributions it was given, because it is in another crate, which is not part of this model.
- `GoodmetricsBatches.BatchAggregations`: reads the map and lists one datum for each place; that the map is left empty is the contract of `Aggregators.Aggregator.DrainInto`.
- `Aggregators.Aggregator.DrainInto`: a batcher that keeps a part of the map leaves it as it says, but the map is then no group-by of whole objects any more.
- `Aggregators.Aggregator.ReceiveOne`: the queue is a function from polls to what they find, and sleeping only adds to a number; the alignment loop around it and the scheduler are left out.
- `AggregatorRuns.ArrivalOrderIrrelevant`: not for sketches, whose clusters depend on the order in which batches arrive; their totals do not, see `AggregatorRuns.SketchTotalsIgnoreArrival`.
- The flat conversions of sums and statistics, the rendering of names in the OpenTelemetry output, timestamps, gRPC clients, TLS, channels, sinks, metrics allocators and factories, introspection, benches and generated protobuf code: field copying or I/O.
