# Correlation analysis of vertex-model and segmentation data

This project is a Dafny model of the analysis core of a vertex-model simulation study. The core computes spatial and temporal correlation functions of per-cell observables, which are masked frame-by-entity arrays. It keeps the correlations in result containers keyed by observable name, averages them over an ensemble of simulation runs, and bins an experimental quantity by cell density. It also covers the two small utilities the scripts use: the configuration lookup and the splitting of an input path.

The model is organised by the program's own structure:

- `Masked` and `Operands`: the masked arrays and the observable pair after dispatch.
- `Bins`, `SpatialKernel` and `Spatial`: the spatial engine. These are the `*_loopv2` kernels and the three drivers.
- `Temporal`: the three temporal routines.
- `Dispatch`: `general_*_correlation`.
- `CorrelationObject`: `VMAutocorrelationObject`.
- `DataClass` and `DensityBins`: the experimental containers and `bin_data`.
- `Ensemble`: `compute_ensemble_average.py`.
- `Config` and `Paths`: the configuration lookup and the path splitting.

Conventions:

- **Numbers.** Floats are `real`. Every IEEE non-finite value is one absorbing `Num.NonFinite`. Integer arithmetic is unbounded, and `int()` truncation is written out (`DensityBins.Trunc`).
- **Square roots.** Dafny cannot compute a square root, so `sqrt` is a parameter. The lemmas that need it assume `Num.IsSqrt(sqrt)`.
- **Distances.** Distances are compared squared, against squared edges.
- **Mutable objects.** The objects whose attributes the source updates are classes, with `modifies` clauses. `CorrelationObject.VMAutocorrelationObject` and `DataClass.AutocorrelationData` each have a `Contents()` function, and their computing methods are proved equal to a step function on that value. `DataClass.VariationData` has no such function: its constructor and its two `add_*` methods state each field's new value directly.
- **Loops.** The loops of the correlation routines, of `bin_data` and of the ensemble accumulation are methods with loop invariants, proved against specification functions (`KernelSpec`, `SpatialSpec`, `TemporalSpec`, `BinDataSpec`, `Accumulated`). The search loop of `get_value`, which only returns a value, is the recursive function `Config.GetValue`.

Behaviours of the code a reader may not expect:

- The bin edges are `[0, 0, dr, 2dr, …]`, up to the last multiple of `dr` below `r_max`. Bin 0 holds the pairs at distance exactly 0, and bin `b >= 1` the pairs with `edges[b] < r <= edges[b+1]`, so bin 1 is `(0, dr]`. Pairs farther than the last edge are in no bin, so not every distance up to `r_max` is counted. `Bins.ExactlyOneBin` states this.
- The pair count of a frame is `N*N` only when every distance is within the last edge (`SpatialKernel.AllPairsWithin`).
- Ensemble averaging does not compare the members' distance or time axes. It takes those of the last member (`Ensemble.Averaged`).
- The time-averaging flag `t_avrg` is accepted by the container methods but not acted on by any routine in the core.

## Model

| member | source | states |
|---|---|---|
| Masked.Compress | analysis/utils/correlations.py:21 | `.compressed()` of a row has as many entries as the mask has valid bits |
| Masked.CompressedEntry | analysis/utils/correlations.py:21 | valid entry `i` of a row is in `.compressed()` at the position counting the valid entries before it |
| Masked.CompressKeepsOrder | analysis/utils/correlations.py:21 | `.compressed()` keeps the valid entries in their order: an earlier valid entry lands at an earlier position |
| Masked.UnmaskedOfAllSome | analysis/utils/correlation_object.py:89 | `.compressed()` of a fully unmasked axis keeps every entry in order |
| Bins.Ceil | analysis/utils/correlations.py:265 | the ceiling used for the length of `np.arange` lies in `[x, x + 1)` |
| Bins.Arange | analysis/utils/correlations.py:265 | `np.arange(start, stop, step)`: the k-th entry is `start + k*step`, all entries are below `stop`, and one more step reaches `stop` |
| Bins.ArangeBounds | analysis/utils/correlations.py:265 | every entry of the progression is below `stop`, and the first one not produced is at or above it |
| Bins.BinEdges | analysis/utils/correlations.py:265 | the edges are a leading 0 followed by `(b-1)*dr` for every such multiple below `r_max`; the multiple after the last reaches `r_max` |
| Bins.BinEdgesAscending | analysis/utils/correlations.py:265 | the edges are non-negative and never decrease |
| Bins.CentresOfBinEdges | analysis/utils/correlations.py:266 | one centre per bin; the first is 0 and every later one is `(2b-1)*dr/2`, strictly inside its half-open bin |
| Bins.InBinMatchesDistance | analysis/utils/correlations.py:237-240 | with the true square root, the squared-distance bin test is exactly the source's test: distance zero for bin 0, `edge_b < r <= edge_{b+1}` otherwise |
| Bins.HalfOpenBinsTile | analysis/utils/correlations.py:240 | the half-open bins `1..m-1` cover `(e_1, e_m]` with no overlap |
| Bins.ExactlyOneBin | analysis/utils/correlations.py:237-240 | a pair lands in exactly one bin when its distance is at most the last edge, and in none beyond it |
| SpatialKernel.Dist2 | analysis/utils/correlations.py:231-235 | squared distances are non-negative, and zero from an entity to itself |
| SpatialKernel.Neighbours | analysis/utils/correlations.py:227-254 | the inner loop over neighbours gives the number of neighbours of centre `j` in bin `b` and their normalised products |
| SpatialKernel.BinRow | analysis/utils/correlations.py:224-254 | the centre loop of one bin sets its count, its value and its mask (masked exactly when no pair fell in it), leaving every other bin as it was |
| SpatialKernel.BinKernel | analysis/utils/correlations.py:211-256 | the kernel's counts, values and mask equal `KernelSpec`; the same holds for the routines at lines 312-359 and 419-468, which differ only in product and rms |
| SpatialKernel.RowValueClosedForm | analysis/utils/correlations.py:254 | summing products each divided by `rms**2` is the sum divided once; it is non-finite for a zero or non-finite `rms**2`, and 0 for a centre without neighbours in the bin |
| SpatialKernel.BinValueClosedForm | analysis/utils/correlations.py:254 | a bin's value is the sum of its pair products over `rms**2`, or 0 when it has no pairs |
| SpatialKernel.SelfPairInZeroBin | analysis/utils/correlations.py:237-238 | every centre is its own neighbour at distance 0, so it is counted in bin 0 |
| SpatialKernel.ZeroBinHoldsSelfPairs | analysis/utils/correlations.py:237-247 | bin 0 holds at least the `n` self pairs, so it is never masked in a frame with entities |
| SpatialKernel.ZeroBinIsSelfPairs | analysis/utils/correlations.py:237-254 | with distinct positions, bin 0 holds exactly the `n` self pairs, and its sum is the sum of the self products |
| SpatialKernel.ZeroBinIsOne | analysis/utils/correlations.py:220-254 | with distinct positions and `rms**2` the non-zero mean of the self products, bin 0 has `n` pairs and value `n` |
| SpatialKernel.BinCountsCoverPairs | analysis/utils/correlations.py:247 | the pair counts of all bins add up to the number of ordered pairs, self pairs included, within the last edge |
| SpatialKernel.AllPairsWithin | analysis/utils/correlations.py:247 | when every distance is within the last edge, the counted pairs number `N*N` |
| Spatial.ScalarProducts | analysis/utils/correlations.py:251 | the scalar–scalar pair product matrix is square over the frame's entities |
| Spatial.ScalarVectorProducts | analysis/utils/correlations.py:354 | the scalar–vector pair product matrix is square over the frame's entities |
| Spatial.VectorProducts | analysis/utils/correlations.py:462 | the vector–vector pair product matrix is square over the frame's entities |
| Spatial.AbsoluteSquare | analysis/utils/correlations.py:220 | `sqrt(abs(mean))**2` is finite with the mean, non-negative, and equal to `±mean` |
| Spatial.SignedSquare | analysis/utils/correlations.py:323 | `sqrt(mean)**2` without `abs` (also line 430) is finite exactly for a finite non-negative mean, and then equals it |
| Spatial.NatArange | analysis/utils/correlations.py:272 | `np.arange(0, Nframes, every_n_frames)` stays in range and starts at 0 |
| Spatial.VisitedFrames | analysis/utils/correlations.py:272 | every visited frame index is a frame of the input |
| Spatial.SharedRows | analysis/utils/correlations.py:284 | the compressed positions and observables of a frame all have the frame's valid count as length |
| Spatial.FrameOf | analysis/utils/correlations.py:284-297 | the kernel input built from one frame is square, of the frame's valid count |
| Spatial.MaskedQuotient | analysis/utils/correlations.py:305 | masked division `C_norm / N_in_rbin` is present exactly for a present finite value over a present positive count, and then times the count gives the value |
| Spatial.Divide | analysis/utils/correlations.py:305 | the division keeps the table's shape |
| Spatial.SpatialSpec | analysis/utils/correlations.py:260-307 | the result tables have one row per frame and one column per bin centre |
| Spatial.SpatialFrame | analysis/utils/correlations.py:277-302 | one visited frame either fails as an oversized scalar–vector frame, or extends the tables by exactly that frame's rows and axis entry |
| Spatial.Blank | analysis/utils/correlations.py:269-273 | the fully masked tables before the frame loop are the tables after no frame |
| Spatial.SpatialFrames | analysis/utils/correlations.py:275-302 | the frame loop fails only on an oversized frame; otherwise its tables are those after every visited frame, and no visited frame was oversized |
| Spatial.SpatialCorrelation | analysis/utils/correlations.py:260-307 | each spatial driver returns `SpatialSpec` unless a visited frame reaches `Nmax` in the scalar–vector driver, whose subsampling names an undefined `var2f` (lines 393-399); the drivers at 363-414 and 472-517 are the same |
| Spatial.SpatialDone | analysis/utils/correlations.py:305-307 | after the loop, dividing the tables and pairing them with the bin centres and the frame axis is `SpatialSpec` |
| Spatial.AllVisited | analysis/utils/correlations.py:275-307 | `SpatialSpec` is what the frame loop builds over the visited frames, then divided |
| Spatial.PositiveRangeHasBins | analysis/utils/correlations.py:265 | a positive `r_max` gives at least the zero bin and one more |
| Spatial.SpecCell | analysis/utils/correlations.py:295-305 | an entry of `N_in_rbin` is the kernel's count where the frame was processed and the bin unmasked, and `C_norm` is then value over count; both are masked otherwise |
| Spatial.SpatialMasks | analysis/utils/correlations.py:273-305 | `frame_axis[f]` is unmasked exactly for processed frames; a count is present exactly for a processed frame and a bin with pairs; bin 0 of a processed frame counts at least its valid entities; a correlation is present only where its count is |
| Spatial.SpatialCellValue | analysis/utils/correlations.py:254-305 | a present bin's correlation is its product sum over `rms**2` over its pair count, and masked when `rms**2` is zero or not finite |
| Spatial.ZeroBinFromDiagonal | analysis/utils/correlations.py:220-305 | when `rms**2` is the positive mean of the self products and positions are distinct, `C_norm[f, 0]` is 1 |
| Spatial.ScalarZeroBinIsOne | analysis/utils/correlations.py:260-307 | a scalar correlated with itself has `C_norm[f, 0] == 1` in every processed frame with distinct positions and a non-zero valid value |
| Spatial.VectorZeroBinIsOne | analysis/utils/correlations.py:472-517 | a vector correlated with itself has `C_norm[f, 0] == 1` in every processed frame with distinct positions and a non-zero valid vector |
| Temporal.OverlapUpTo | analysis/utils/correlations.py:35 | the entities valid in both frames, below `n`, ascending, and all of them |
| Temporal.Overlap | analysis/utils/correlations.py:35 | `bool_ok` selects entities of the frame, valid in both |
| Temporal.TemporalValue | analysis/utils/correlations.py:44-45 | a lagged value is present exactly when the two frames share a valid entity |
| Temporal.SliceStop | analysis/utils/correlations.py:50 | `[:t_max]` never keeps more columns than there are |
| Temporal.Full | analysis/utils/correlations.py:14-48 | the unsliced tables are `Nframes` by `Nframes` |
| Temporal.TemporalSpec | analysis/utils/correlations.py:7-50 | the returned tables have one row per frame and `t_max` columns at most |
| Temporal.FullCell | analysis/utils/correlations.py:45-48 | a written pair `(i, j)` holds its value at lag `j-i`, `min(Noki, Nokj)` and the lag; an unwritten one is masked |
| Temporal.TemporalCell | analysis/utils/correlations.py:29-48 | one pass of the inner loop writes exactly the cells of pair `(i, j)` |
| Temporal.TemporalRow | analysis/utils/correlations.py:20-48 | the inner loop over `j >= i` fills row `i` |
| Temporal.TemporalCorrelation | analysis/utils/correlations.py:7-50 | the routine's three tables are `TemporalSpec`; the same holds for the routines at lines 53-101 and 105-155 |
| Temporal.OverlapBound | analysis/utils/correlations.py:46 | the entities averaged over number at most `min(Noki, Nokj)` |
| Temporal.TemporalMasks | analysis/utils/correlations.py:14-50 | which cells are unmasked: `C_norm[i, c]` for a shared valid entity at lag `c`, `N` and `delta_f` for both frames valid and `i <= c`; `N` holds `min(Noki, Nokj)`, which bounds the overlap, and `delta_f` holds `c - i` |
| Temporal.NormalisedValue | analysis/utils/correlations.py:44-45 | a value is finite exactly when the product of the two frames' own means is non-zero; its square times their absolute product is the cross mean squared, with the cross mean's sign |
| Temporal.LagZeroIsSign | analysis/utils/correlations.py:44-45 | at lag 0 the value is the sign of the frame's own mean contraction |
| Temporal.PositiveSelfContraction | analysis/utils/correlations.py:44-45 | with non-negative self contractions, one of them positive, `C_norm[i, 0]` is exactly 1 |
| Temporal.ScalarLagZeroIsOne | analysis/utils/correlations.py:7-50 | a scalar with itself has `C_norm[i, 0] == 1` for every frame with a valid non-zero entry |
| Temporal.VectorLagZeroIsOne | analysis/utils/correlations.py:105-155 | a vector with itself has `C_norm[i, 0] == 1` for every frame with a valid non-zero vector |
| Dispatch.Route | analysis/utils/correlations.py:159-196 | the dispatch fails the assertion exactly when a rank is neither 2 nor 3 (also lines 522-565) |
| Dispatch.RouteDefault | analysis/utils/correlations.py:161-162 | a missing `var2` is `var1`: a scalar goes scalar–scalar and a vector vector–vector with itself |
| Dispatch.RouteMixedSymmetric | analysis/utils/correlations.py:188-190 | a vector with a scalar reaches the scalar–vector routine with the same operands as the scalar with the vector (also lines 554-557) |
| Dispatch.GeneralTemporalCorrelation | analysis/utils/correlations.py:159-203 | the assertion error, or the dispatched routine's result |
| Dispatch.SubsampleLimit | analysis/utils/correlations.py:538-565 | the dispatcher uses the default `Nmax` except for the vector–vector routine, which has none |
| Dispatch.GeneralSpatialCorrelation | analysis/utils/correlations.py:522-574 | the assertion error, or the dispatched routine's result with every frame visited |
| Dispatch.GeneralScalarLagZero | analysis/utils/correlations.py:159-203 | `general_temporal_correlation(var)` of a scalar is 1 at lag 0 in every frame with a valid non-zero entry |
| Dispatch.GeneralVectorLagZero | analysis/utils/correlations.py:159-203 | the same for a vector observable |
| DataClass.DensityTimesMeanArea | analysis/experimental/data_class.py:88-90 | the density is unmasked exactly for a frame with areas not summing to zero, and density times mean cell area is `10**6` |
| DataClass.DensityPositive | analysis/experimental/data_class.py:88-90 | positive cell areas give a positive density |
| DataClass.VariationData.constructor | analysis/experimental/data_class.py:94-100 | a new container for a path that is not a file is "empty" with nothing set |
| DataClass.VariationData.AddUnbinnedData | analysis/experimental/data_class.py:104-118 | sets the datatype and densities, and the variation and height of the named measurement only |
| DataClass.VariationData.AddBinnedData | analysis/experimental/data_class.py:122-142 | sets the datatype and densities, and the variation and its spread of the named measurement only |
| DataClass.VariationData.BinData | analysis/experimental/data_class.py:209-243 | an AttributeError before any densities were added, otherwise the binning of the stored densities with the intended edges of the "## Findings" row (one edge past `max_bin`) |
| DataClass.FrameAxis | analysis/experimental/data_class.py:336 | `variable.shape[-2]` is the frame count of a scalar or vector observable, and an error for rank below 2 |
| DataClass.AutocorrelationData.constructor | analysis/experimental/data_class.py:248-261 | a new container for a path that is not a file has empty dictionaries and an empty log |
| DataClass.AutocorrelationData.ComputeSpatial | analysis/experimental/data_class.py:326-344 | the new state and outcome are `SpatialStep` of the old state |
| DataClass.AutocorrelationData.ComputeTemporal | analysis/experimental/data_class.py:348-363 | the new state and outcome are `TemporalStep` of the old state |
| DataClass.SpatialGuard | analysis/experimental/data_class.py:330-333 | without `overwrite`, an existing name leaves every dictionary unchanged and succeeds |
| DataClass.TemporalGuard | analysis/experimental/data_class.py:352-355 | without `overwrite`, an existing name leaves every dictionary unchanged and succeeds |
| DataClass.SpatialKeepsTemporal | analysis/experimental/data_class.py:326-344 | `compute_spatial` never changes `temporal`, `t_array` or the log's "t" entry |
| DataClass.SpatialCompletes | analysis/experimental/data_class.py:336-344 | past the guard, with a successful routine, the result is stored under the name with its date, and every other name is untouched |
| DataClass.TemporalKeepsSpatial | analysis/experimental/data_class.py:348-363 | `compute_temporal` never changes `spatial`, `r_array` or the log's "r" entry |
| DataClass.TemporalCompletes | analysis/experimental/data_class.py:358-363 | past the guard, with a successful routine, the result and the time axis `0..t_max-1` are stored with its date, and every other name is untouched |
| DataClass.TimeAxis | analysis/experimental/data_class.py:362 | `np.arange(t_max)` is `0, 1, .., t_max-1`, and empty for `t_max <= 0` |
| DataClass.SpatialComputedOnce | analysis/experimental/data_class.py:330-344 | on a fresh container the first call stores the name, and a repeat without `overwrite` changes nothing |
| DensityBins.Trunc | analysis/experimental/data_class.py:211 | Python `int()` truncates toward zero |
| DensityBins.MinOf | analysis/experimental/data_class.py:211 | `np.min` is an element at or below every element |
| DensityBins.MaxOf | analysis/experimental/data_class.py:212 | `np.max` is an element at or above every element |
| DensityBins.IntArange | analysis/experimental/data_class.py:213 | integer `np.arange` stays in `[start, stop)` and is empty exactly when `start >= stop` |
| DensityBins.Digitize | analysis/experimental/data_class.py:219 | `np.digitize` gives at most the number of edges |
| DensityBins.DigitizeBetween | analysis/experimental/data_class.py:219-222 | on increasing edges, a value is in bucket `i` exactly when `edges[i-1] <= x < edges[i]` |
| DensityBins.InBucketMembers | analysis/experimental/data_class.py:222 | `np.where(idx == i)[0]` is, in increasing order, exactly the indices in bucket `i` |
| DensityBins.Bucket | analysis/experimental/data_class.py:222-232 | one bucket's count, mean and std, each 0 where the loop skips; `ok` is false exactly when a member indexes past `variable` |
| DensityBins.BucketStatistics | analysis/experimental/data_class.py:221-232 | the bucket loop fails exactly when some bucket indexes past `variable`, and otherwise gives every bucket's count, mean and std |
| DensityBins.BinData | analysis/experimental/data_class.py:209-243 | the edges and per-bucket means and stds are `BinDataSpec`, with the intended edges |
| DensityBins.BucketStatisticsAre | analysis/experimental/data_class.py:221-232 | the statistics gathered bucket by bucket are the sequences of bucket means and stds |
| DensityBins.BinDataShape | analysis/experimental/data_class.py:209-243 | a ValueError exactly for no densities, an IndexError exactly when a bucket indexes past `variable`; otherwise one mean and std per bucket, each the statistics of its members |
| DensityBins.BinnedMeans | analysis/experimental/data_class.py:230 | every bucket mean is the mean over its members |
| DensityBins.BinnedStds | analysis/experimental/data_class.py:231-232 | every bucket std is the sample std over its members |
| DensityBins.IndexErrorExactly | analysis/experimental/data_class.py:222-230 | with non-negative densities and the intended edges of the "## Findings" row, an IndexError exactly when `variable` is shorter than `density`; with the edges as written, entries equal to the largest density are never indexed, so the condition there differs |
| DensityBins.BucketBounds | analysis/experimental/data_class.py:211-212 | `min_bin <= min` and `max_bin <= max < max_bin + bin_size` for non-negative densities |
| DensityBins.EdgesLength | analysis/experimental/data_class.py:213 | the edges as written have at least one edge, the intended ones at least two |
| DensityBins.SourceEdgesShape | analysis/experimental/data_class.py:211-213 | as written, the edges are consecutive multiples of `bin_size` ending at `max_bin` |
| DensityBins.DensityEdgesShape | analysis/experimental/data_class.py:211-213 | the intended edges have one more multiple, ending at `max_bin + bin_size` |
| DensityBins.IntendedEdgesCover | analysis/experimental/data_class.py:219-221 | with the intended edges, every value between the smallest and largest density is in a bucket |
| DensityBins.CountsAreBinned | analysis/experimental/data_class.py:221-223 | buckets are disjoint: their sizes add up to the number of densities in some bucket |
| DensityBins.IntendedCountsTotal | analysis/experimental/data_class.py:219-223 | with the intended edges, the bucket sizes add up to the number of densities |
| DensityBins.SourceMissesLargest | analysis/experimental/data_class.py:213-221 | as written, the largest density is in no bucket |
| DensityBins.SourceCountsShort | analysis/experimental/data_class.py:213-223 | as written, the bucket sizes add up to fewer than the number of densities |
| DensityBins.SourceSingleDensity | analysis/experimental/data_class.py:211-223 | a single density 150 with `bin_size` 100 is counted nowhere as written, and once with the intended edges |
| DensityBins.BucketMeanProperties | analysis/experimental/data_class.py:230 | the mean times the count is the members' sum, and equals their common value when they agree |
| DensityBins.BucketStdProperties | analysis/experimental/data_class.py:231-232 | the std is non-negative, and 0 when all members agree |
| CorrelationObject.RFind | analysis/utils/correlation_object.py:19 | the last occurrence of a character, or -1 |
| CorrelationObject.SplitExtProperties | analysis/utils/correlation_object.py:19 | `splitext`: root plus extension is the name; an extension is one dot and no further dot or slash, present exactly when the final component has a dot after a non-dot |
| CorrelationObject.ObjectPathShape | analysis/utils/correlation_object.py:22 | the object path is the fixed prefix, the root and `.obj`; names differing only in extension share it |
| CorrelationObject.SaveState | analysis/utils/correlation_object.py:66-73 | the saved dictionary carries the file name |
| CorrelationObject.SaveLoadRoundTrip | analysis/utils/correlation_object.py:39-78 | loading what was saved under the same name gives the saved state back; under another name it fails the assertion |
| CorrelationObject.LoadWithoutName | analysis/utils/correlation_object.py:51 | a file without a name loads only into an object whose name is empty |
| CorrelationObject.SpatialAlwaysStores | analysis/utils/correlation_object.py:82-90 | with no guard, a successful routine always stores the compressed results under the name and logs the date |
| CorrelationObject.SpatialKeepsTemporal | analysis/utils/correlation_object.py:82-90 | `compute_spatial` never changes the temporal side or the log's "t" entry |
| CorrelationObject.VMAutocorrelationObject.constructor | analysis/utils/correlation_object.py:19-29 | the object has the file name, the derived path and fresh state |
| CorrelationObject.VMAutocorrelationObject.SavePickle | analysis/utils/correlation_object.py:63-78 | what is saved loads back into the same state under the object's name |
| CorrelationObject.VMAutocorrelationObject.LoadState | analysis/utils/correlation_object.py:39-59 | a name mismatch fails and changes nothing; otherwise the state is the saved one, each missing key empty |
| CorrelationObject.VMAutocorrelationObject.ComputeSpatial | analysis/utils/correlation_object.py:82-90 | the new state and outcome are `SpatialStep` of the old state |
| CorrelationObject.Open | analysis/utils/correlation_object.py:9-35 | a `None` name fails the assertion; otherwise a fresh object, loaded from its file when that exists |
| Ensemble.ColumnMeans | analysis/compute_ensemble_average.py:20 | one mean per entry |
| Ensemble.ColumnStds | analysis/compute_ensemble_average.py:21 | one std per entry |
| Ensemble.AverageProperties | analysis/compute_ensemble_average.py:16-22 | a ValueError exactly for ragged members; otherwise each mean times `K` is its column sum, and each std is non-negative with `std**2 * K` the sum of squared deviations |
| Ensemble.MeanColumn | analysis/compute_ensemble_average.py:20 | entry `j` of the mean times `K` is column `j`'s sum |
| Ensemble.StdColumn | analysis/compute_ensemble_average.py:21 | entry `j` of the std is the population std of column `j` |
| Ensemble.AverageOfIdentical | analysis/compute_ensemble_average.py:16-22 | identical members average to themselves with a zero std |
| Ensemble.Contribution | analysis/compute_ensemble_average.py:53 | `a += v / n` with numpy broadcasting: entry by entry for an array of the same length, the single entry added everywhere for an array of length 1 |
| Ensemble.ScaledSumEntry | analysis/compute_ensemble_average.py:46-56 | entry `j` after the loop is the start plus the column sum over `n` |
| Ensemble.AccumulatedMean | analysis/compute_ensemble_average.py:45-56 | from zeros, adding every member over `K` gives `compute_average`'s mean |
| Ensemble.AccumulatedIdentical | analysis/compute_ensemble_average.py:45-56 | `K` identical members accumulated from zeros give the member back |
| Ensemble.FitsSameShape | analysis/compute_ensemble_average.py:51-56 | whether a member fits (every label present, every array broadcastable) depends only on the accumulator's labels and lengths |
| Ensemble.AddScaled | analysis/compute_ensemble_average.py:51-56 | one file's contribution keeps the accumulator's labels and lengths |
| Ensemble.Accumulated | analysis/compute_ensemble_average.py:46-56 | the accumulation over the files keeps the labels and lengths |
| Ensemble.AccumulatedEntry | analysis/compute_ensemble_average.py:51-56 | label by label, the map accumulation is the accumulation of that label's arrays, each broadcast to the accumulator's length |
| Ensemble.AccumulatedSnoc | analysis/compute_ensemble_average.py:46-56 | one more file is one more `AddScaled` step |
| Ensemble.AveragedIsMean | analysis/compute_ensemble_average.py:45-60 | from a zero accumulator, every label holds `compute_average`'s mean of the members' arrays broadcast to the accumulator's length, on both sides |
| Ensemble.LabelIsMean | analysis/compute_ensemble_average.py:51-56 | one side of `AveragedIsMean` |
| Ensemble.AddScaledIs | analysis/compute_ensemble_average.py:51-56 | a map with the accumulator's labels, each holding the added arrays, is `AddScaled` |
| Ensemble.AddMember | analysis/compute_ensemble_average.py:51-56 | one file passes exactly when every label is present on both sides with an array that broadcasts (the same length, or length 1), and then adds it over `n`; a failure is a KeyError or ValueError |
| Ensemble.AccumulateMaps | analysis/compute_ensemble_average.py:46-56 | the file loop passes exactly when every file fits, and then gives the accumulation over all files |
| Ensemble.AccumulateEnsemble | analysis/compute_ensemble_average.py:36-60 | no files is an IndexError, unequal label sets an AssertionError; success exactly when every file fits, and then the state is the average with the last file's axes |
| Config.Lookup | analysis/utils/config_functions.py:22 | `d[key]` is the value of the first entry with that key |
| Config.LookupUnique | analysis/utils/config_functions.py:22 | for an object with unique keys, as `json.load` gives, `d[key]` is the value of the one entry holding the key |
| Config.GetValueFirstHolder | analysis/utils/config_functions.py:20-24 | the result is the key's value in the first top-level object holding it, and `None` when none does |
| Config.GetValueSkipsNonObjects | analysis/utils/config_functions.py:21 | non-object top-level values never affect the result |
| Config.OneLevelOnly | analysis/utils/config_functions.py:20-24 | the search is exactly one level deep |
| Paths.Find | analysis/utils/path_handling.py:10 | the leftmost occurrence of the separator, or none |
| Paths.LastPiece | analysis/utils/path_handling.py:10 | `split(sep)[-1]` is a ValueError exactly for an empty separator |
| Paths.LastPieceProperties | analysis/utils/path_handling.py:10 | the last piece is a suffix with no separator in it: all of the string when there is none, otherwise what follows an occurrence |
| Paths.Components | analysis/utils/path_handling.py:11-12 | path components are non-empty, not `.`, and slash-free |
| Paths.Render | analysis/utils/path_handling.py:12 | `str()` of a path is never empty |
| Paths.Name | analysis/utils/path_handling.py:11 | `Path.name` has no slash |
| Paths.ParentText | analysis/utils/path_handling.py:12 | `str(Path.parent)` is never empty |
| Paths.DecomposeInputPath | analysis/utils/path_handling.py:7-14 | a ValueError exactly for an empty data directory; otherwise a parent ending in `/` and a slash-free name |
| Paths.NoDirectory | analysis/utils/path_handling.py:11-12 | a tail without a slash has parent `./` and is its own name |
| Paths.ParentAndNameOfJoin | analysis/utils/path_handling.py:11-12 | the name is the last clean component and the parent the others (`.` for none) |
| Paths.ParentAndNameRebuild | analysis/utils/path_handling.py:7-14 | parent plus name give the relative tail back, behind `./` for a single component |
| Paths.TypicalInput | analysis/utils/path_handling.py:10 | a typical input path keeps what follows the data directory |
| Paths.SplitDoesNotOverlap | analysis/utils/path_handling.py:10 | the cuts of `split` do not overlap |

## Left out

- **Files.** Pickle, JSON and file I/O are not modelled. This covers `load` in config_functions.py, the object file reads and writes, and the `load`/`save` methods of the three experimental containers. A saved object file is the value `CorrelationObject.Saved`, and whether the file exists is a parameter of `CorrelationObject.Open`.
- **SegmentationData other methods.** `load`, `save` and `add` are left out because they are file I/O and attribute assignment. The `save` method stores `self.x` under the key `'label'`, so the label is never saved; this is not modelled either.
- **`AutocorrelationData.bin_data`.** Not modelled: it reads a `density` attribute and a `variable` name that the class never defines, so it always fails.
- **Side effects.** The clock is a `now` parameter. `print`, `tqdm` and the directory creation have no counterpart.
- **Dropped parameters.** `path_addition` is left out, because it only prefixes file paths.
- **Random subsampling.** The scalar–scalar spatial routine subsamples a frame with `Nok >= Nmax` at random. `Spatial.SpatialCorrelation` requires that no visited frame of that routine is that large. The vector–vector routine has no `Nmax` (`Dispatch.SubsampleLimit`), so it has no size restriction.
- Spatial.SpatialCorrelation: `every_n_frames` is a parameter, but the dispatcher always uses 1.
- **Float behaviour.** Floating-point rounding is not modelled, and all non-finite values are one value.
- Spatial.SpatialCorrelation: the `SpatialInputs`, `WellShaped`, `Covered` and `SharedMask` requirements make the position and observable arrays share one mask. The source accepts masks that differ but have the same valid count in a frame; it then pairs the compressed entries by rank (correlations.py lines 284, 389-391 and 500-502) and silently correlates the wrong entities. The model does not cover those inputs. Arrays whose shapes numpy would broadcast are likewise outside the requirements.
- Bins.BinEdges: it requires `dr > 0`, as does `Bins.Arange`. `np.arange(0, r_max, dr)` raises an error for `dr == 0` and, for non-negative `r_max`, returns no entries for `dr < 0`; neither case is modelled.
- Temporal.TemporalCorrelation: it requires `Covered`, and so does `Dispatch.GeneralTemporalCorrelation`. The source compresses `var2` with `var1`'s selection of valid entities (correlations.py lines 38-45, and likewise in the scalar–vector and vector–vector routines). When `var2` is masked at an entity where `var1` is valid, the two compressed rows differ in length. The product then raises ValueError, or broadcasts silently when one side has length 1. The model does not cover those inputs; the callers in the repository pass `var2 = var1`, which meets the requirement.
- **Dispatch shapes.** `general_*_correlation` sees only ranks: an array of rank 2 or 3 whose components do not have the frame-by-entity shape is excluded by the requirements. The `Observable` datatype keeps that shape.
- **Time averaging.** The `t_avrg` argument is passed to the routine parameter of the container methods, since the routine modules those containers import are outside the core; no routine in the core averages over time.
- Ensemble.AccumulateEnsemble: `main` first builds its accumulator with `copy_structure`, which `VMAutocorrelationObject` does not define. The model therefore starts from a given accumulator. The arrays are one-dimensional; a member array of the accumulator's length or of length 1 is added with numpy broadcasting, and any other length is a ValueError. On a failing file it states only that the error is a KeyError or ValueError, because which label fails first depends on the dictionary order.
- **Not modelled in `compute_ensemble_average.py`.** `glob`, `argparse`, `save_ensemble_average` and the final `save_pickle` are left out.
- Ensemble.ComputeAverage: it requires at least one member. numpy returns NaN with a warning for no members; `compute_average` has no caller in the repository, so no call site settles what it receives.
- DataClass.VariationData.BinData and DensityBins.BinData: they require `bin_size >= 1`. A zero bin size divides by zero in the source. The bin size is a natural number, although `int(x / bin_size) * bin_size` also accepts a float; fractional bin sizes are not modelled. Both bin with the intended edges of the "## Findings" row (`DensityBins.DensityEdges`), not with the edges as written, which `DensityBins.SourceEdges` models.
- Config.Lookup: a JSON object is a list of entries and may repeat a key, where `Lookup` returns the first. A dictionary from `json.load` keeps the last of repeated keys; with unique keys (`Config.UniqueKeys`, as in a loaded file) the two agree, which `Config.LookupUnique` states. Repeated top-level sections are not modelled either.
- **Square root.** `sqrt` is a parameter, and only its defining property (`Num.IsSqrt`) is used.
- **Outer scripts.** Plotting, the video maker, the simulation drivers under `exe/` and the other scripts are not part of this model.

## Findings

| source | as written | input that shows it | evidently intended | confidence | as-written member | corrected member |
|---|---|---|---|---|---|---|
| analysis/experimental/data_class.py:211-213 | the edges `np.arange(min_bin, max_bin + bin_size, bin_size)` stop at `max_bin`, and `np.digitize` puts the largest density past the last bucket, so it is never counted | densities `[150.0]`, `bin_size` 100: the edges are `[100]`, there is no bucket, and the density is counted nowhere | one more edge (`max_bin + bin_size`), so that every density falls in exactly one bucket | not executed | DensityBins.SourceCountsShort | DensityBins.IntendedCountsTotal |
