# Proximity operators of the parallel MRI plugin, and the MRTransform wrapper

This project models, in Dafny, the proximity (regularisation) operators of
pysap's online parallel-MRI reconstruction plugin:

- ElasticNet: a soft threshold followed by a uniform rescale;
- GroupLasso: column-wise shrinkage of the L2 norm;
- SparseGroupLasso: the soft threshold followed by the group shrinkage;
- NuclearNorm: per-patch singular-value shrinkage, with the image/sparse dispatch and an in-place loop over patches;
- OWL: sort by magnitude, project onto the non-increasing non-negative cone, unsort and restore signs, in the modes 'all', 'band_based' and 'coeff_based';
- k_support_norm: theta, the candidate grid, the bounded binary search, the interpolation of alpha*, the final shrink, and `_find_q`. The main theorem is `sum(theta(alpha*)) = k` whenever the pair the search returns brackets k.

It also models the `MRTransform` class of sparse2d's Python binding:

- the checks its constructor makes on the integer codes it receives;
- the refusal of an empty output path in `Save`;
- the MultiResol object that the first `Transform` allocates and later calls reuse;
- the band insertion of `Reconstruct`.

Every operator works on `real` sequences. Arrays are row-major sequences of rows, as (channels x coefficients). Each `op` comes with lemmas:

- its shrinkage bounds;
- that it keeps signs;
- when it zeroes an entry;
- round trips (sort then unsort, flatten then reshape);
- that the bands tile the columns;
- where a search terminates.

The external numerical kernels are function parameters constrained by what the code relies on. These are the SVD, isotonic regression, argsort, the square root, `_oscar_weights`, the filter-bank lookup, and the MultiResol analysis and synthesis.

In k_support_norm, numpy's inf and nan are values of a `Float` type (module `Floats`):
- a division by zero gives inf with the dividend's sign, or nan for 0 / 0;
- np.sort(np.unique(...)) puts -inf first, then the finite values, then +inf, then one nan;
- every comparison with nan is false;
- theta at an infinite alpha is nan, because the source multiplies inf by a 0 indicator.

So an input with zero entries runs through the model as it runs through the program. Elsewhere a division by zero is an error outcome.

Modules, one file each:

- `Wrappers` (wrappers.dfy);
- `Floats` (floats.dfy): numpy's float64 values inf and nan, division by +0.0, sort order and comparisons;
- `Numeric` (numeric.dfy): shared arithmetic and Python indexing;
- `Lasso` and `ElasticNet` (elastic_net.dfy);
- `GroupLasso` and `SparseGroupLasso` (group_lasso.dfy);
- `NuclearNorm` (nuclear_norm.dfy);
- `Permutation` (permutation.dfy);
- `Layout` (layout.dfy): reshapes and band offsets;
- `Owl` (owl.dfy);
- `KSupport` (k_support.dfy);
- `Sparse2D` (mr_transform.dfy).

## Model

| member | source | states |
|---|---|---|
| Lasso.SoftProperties | pysap/plugins/mri/parallel_mri_online/proximity.py:44-46 | The soft threshold never grows an entry's magnitude and keeps its sign. It zeroes x exactly when x is 0 or the threshold reaches max(eps64, \|x\|). Above the epsilon floor it moves \|x\| down by t, clipped at 0. A zero threshold is the identity. |
| Lasso.CostEquation | pysap/plugins/mri/parallel_mri_online/proximity.py:416 | The SparseThreshold cost sum \|w x_i\| equals \|w\| times the L1 norm of x. |
| Lasso.CostNonNegative | pysap/plugins/mri/parallel_mri_online/proximity.py:416 | The SparseThreshold cost is never negative. |
| ElasticNet.Scale | pysap/plugins/mri/parallel_mri_online/proximity.py:67 | The rescale factor exists exactly when 1 + 2 wl wr is non-zero. For non-negative weights it lies in (0, 1]. |
| ElasticNet.Op | pysap/plugins/mri/parallel_mri_online/proximity.py:50-70 | op succeeds exactly when the rescale denominator is non-zero, and keeps the number of entries. |
| ElasticNet.OpShrinks | pysap/plugins/mri/parallel_mri_online/proximity.py:67-70 | With non-negative weights and extra factor, every output entry is no larger than the input entry in magnitude and has its sign. It is zero exactly when the input is 0 or wl * extra reaches max(eps64, \|x\|). |
| ElasticNet.OpClosedForm | pysap/plugins/mri/parallel_mri_online/proximity.py:67-70 | Above eps64, \|op(x)_i\| = max(\|x_i\| - wl * extra, 0) / (1 + 2 wl wr). |
| ElasticNet.OpZeroWeightsIsIdentity | pysap/plugins/mri/parallel_mri_online/proximity.py:67-70 | With both weights 0, op returns its input unchanged. |
| ElasticNet.GetCost | pysap/plugins/mri/parallel_mri_online/proximity.py:72-86 | wl * L1 + wr * L2 is non-negative for non-negative weights. |
| ElasticNet.GetCostZeroExactlyAtZero | pysap/plugins/mri/parallel_mri_online/proximity.py:85-86 | For wl > 0 the cost is zero exactly when every entry is zero. |
| GroupLasso.Op | pysap/plugins/mri/parallel_mri_online/proximity.py:321-340 | op keeps the (rows x columns) shape. |
| GroupLasso.OpShrinksColumn | pysap/plugins/mri/parallel_mri_online/proximity.py:338-340 | Column j of the output is column j of the input scaled by max(0, 1 - w extra / max(norm_j, eps32)). That factor lies in [0,1], so the column's squared norm does not grow. |
| GroupLasso.OpZeroesColumn | pysap/plugins/mri/parallel_mri_online/proximity.py:338-340 | A column becomes zero exactly when its norm is 0 or w * extra reaches max(eps32, norm). Above eps32, that happens exactly when the norm is at most w * extra. |
| GroupLasso.GetCost | pysap/plugins/mri/parallel_mri_online/proximity.py:342-356 | The sum of the column norms is non-negative, and zero exactly when every column norm is zero. |
| GroupLasso.NormSumZero | pysap/plugins/mri/parallel_mri_online/proximity.py:355 | A sum of non-negative norms is non-negative, and zero exactly when each norm is zero. |
| SparseGroupLasso.LassoStep | pysap/plugins/mri/parallel_mri_online/proximity.py:398-401 | The first stage soft-thresholds every row by wl1 * extra. |
| SparseGroupLasso.Op | pysap/plugins/mri/parallel_mri_online/proximity.py:380-401 | The composition keeps the (rows x columns) shape. |
| SparseGroupLasso.OpShrinksEntries | pysap/plugins/mri/parallel_mri_online/proximity.py:398-401 | Each output entry is no larger than the input entry and keeps its sign. It is zero whenever wl1 * extra reaches max(eps64, \|x\|). |
| SparseGroupLasso.EntryShrinks | pysap/plugins/mri/parallel_mri_online/proximity.py:398-401 | The soft threshold times a group factor in [0,1] shrinks an entry, keeps its sign and zeroes it past the threshold. |
| SparseGroupLasso.GetCostAsWritten | pysap/plugins/mri/parallel_mri_online/proximity.py:403-417 | get_cost as written always fails: the group part has no `cost` method. |
| SparseGroupLasso.GetCost | pysap/plugins/mri/parallel_mri_online/proximity.py:403-417 | The corrected cost, the L1 cost plus the sum of column norms, is non-negative. |
| SparseGroupLasso.L1CostNonNegative | pysap/plugins/mri/parallel_mri_online/proximity.py:416 | The L1 part of the cost is non-negative. |
| SparseGroupLasso.GetCostAsWrittenFails | pysap/plugins/mri/parallel_mri_online/proximity.py:416 | On the empty array, get_cost as written fails where the corrected one returns 0. |
| NuclearNorm.New | pysap/plugins/mri/parallel_mri_online/proximity.py:106-125 | The constructor fails with InvalidMode exactly when mode is neither "image" nor "sparse". It fails with MissingLinearOp exactly when mode is "sparse" without a linear operator. Otherwise it stores its arguments. |
| NuclearNorm.ShrinkValueBounds | pysap/plugins/mri/parallel_mri_online/proximity.py:132-134 | A shrunk singular value lies in [0, s]. It is zero exactly when s is 0 or t reaches max(eps32, s). Above eps32 it equals max(s - t, 0). A zero threshold is the identity. |
| NuclearNorm.ShrinkValueMonotone | pysap/plugins/mri/parallel_mri_online/proximity.py:132-134 | Shrinking keeps the order of singular values. |
| NuclearNorm.ShrinkKeepsSingularValues | pysap/plugins/mri/parallel_mri_online/proximity.py:132-134 | Shrunk singular values stay non-negative and non-increasing, and each is at most its original. |
| NuclearNorm.ProxPatch | pysap/plugins/mri/parallel_mri_online/proximity.py:127-138 | The prox of a patch keeps its (m x n) shape. |
| NuclearNorm.ProxPatchShrinks | pysap/plugins/mri/parallel_mri_online/proximity.py:127-138 | For a non-negative threshold the result has the SVD (u, shrunk s, vh): the shrunk values are non-negative and in order. They sum to at most the original singular values. |
| NuclearNorm.ProxPatchZeroThreshold | pysap/plugins/mri/parallel_mri_online/proximity.py:127-138 | With threshold 0 the prox returns the patch unchanged. |
| NuclearNorm.OpPath | pysap/plugins/mri/parallel_mri_online/proximity.py:167-219 | op takes exactly one of four paths. Sparse mode works on coefficients. In image mode, data whose trailing shape is the patch shape is a single patch. Otherwise the overlapping factor 1 or not chooses the reconstruction. |
| NuclearNorm.ProxPatches | pysap/plugins/mri/parallel_mri_online/proximity.py:181-185 | The in-place loop replaces every patch by its prox and nothing else. |
| NuclearNorm.Op | pysap/plugins/mri/parallel_mri_online/proximity.py:147-245 | op follows OpPath and replaces every patch by its prox at threshold weights * extra_factor. |
| NuclearNorm.TotalCostNonNegative | pysap/plugins/mri/parallel_mri_online/proximity.py:140-145 | The sum of the patches' nuclear norms is non-negative. |
| NuclearNorm.GetCost | pysap/plugins/mri/parallel_mri_online/proximity.py:247-302 | get_cost fails exactly on the multi-patch paths with num_cores other than 1. Otherwise it is the total nuclear norm times the threshold, non-negative for a non-negative threshold. |
| NuclearNorm.PatchCost | pysap/plugins/mri/parallel_mri_online/proximity.py:140-145 | A patch's cost, the sum of its absolute singular values, is non-negative. On singular values it is their sum, the quantity ProxPatchShrinks bounds. |
| Permutation.ReversedArgsortDescends | pysap/plugins/mri/parallel_mri_online/proximity.py:459 | The reversal of an ascending argsort lists the values in descending order. |
| Permutation.InverseOfPermutation | pysap/plugins/mri/parallel_mri_online/proximity.py:466-467 | `inv[ix] = arange(n)` is a permutation that undoes ix from both sides. |
| Permutation.GatherRoundTrip | pysap/plugins/mri/parallel_mri_online/proximity.py:460-468 | Gathering by ix and then by its inverse restores the original sequence. |
| Permutation.DescendingPositions | pysap/plugins/mri/parallel_mri_online/proximity.py:459-460 | Under a descending order, a strictly larger value sits at an earlier position. |
| Layout.FlattenLength | pysap/plugins/mri/parallel_mri_online/proximity.py:480 | Flattening an (r x n) array gives r * n entries. |
| Layout.ReshapeFlatten | pysap/plugins/mri/parallel_mri_online/proximity.py:488-492 | Reshaping a flattened array to its shape gives the array back. |
| Layout.FlattenReshape | pysap/plugins/mri/parallel_mri_online/proximity.py:488-492 | Flattening a reshaped vector gives the vector back. |
| Layout.BandCols | pysap/plugins/mri/parallel_mri_online/proximity.py:489 | data[:, start:stop] has stop - start columns, holding the original entries. |
| Layout.OffsetMonotone | pysap/plugins/mri/parallel_mri_online/proximity.py:483-493 | The `start` cursor never moves backwards. |
| Layout.BandsDisjoint | pysap/plugins/mri/parallel_mri_online/proximity.py:483-493 | Two different bands share no column. |
| Layout.BandOf | pysap/plugins/mri/parallel_mri_online/proximity.py:483-493 | Every column before the cursor's final position lies in exactly one band: the bands tile the prefix without gaps. |
| Owl.Times | pysap/plugins/mri/parallel_mri_online/proximity.py:479 | weights * extra_factor exists exactly when the weights are not a list of per-band arrays. |
| Owl.Broadcast | pysap/plugins/mri/parallel_mri_online/proximity.py:463 | `data_abs - threshold` broadcasts exactly for a scalar, an array of length n or 1, or one entry against any array. One entry against an array gives the array's length; otherwise the length is n. |
| Owl.Sign | pysap/plugins/mri/parallel_mri_online/proximity.py:470 | The sign is -1, 0 or 1 and times \|x\| gives x back. |
| Owl.DescendingIndex | pysap/plugins/mri/parallel_mri_online/proximity.py:459 | `argsort(...)[::-1]` lists the magnitudes in descending order. |
| Owl.ProxOwl | pysap/plugins/mri/parallel_mri_online/proximity.py:457-472 | Corrected sign (np.sign). _prox_owl succeeds exactly when the threshold broadcasts and something can be gathered back: one entry against an empty array is an error. The result has the input's length. Each entry has the input's sign. A non-zero entry's magnitude is the projected value unsorted back to its position. |
| Owl.ApplySigns | pysap/plugins/mri/parallel_mri_online/proximity.py:470-472 | The signs applied to non-negative magnitudes keep every entry's sign and give non-zero entries exactly those magnitudes. |
| Owl.UnsortRestoresPositions | pysap/plugins/mri/parallel_mri_online/proximity.py:459-468 | Unsorting by inv_x restores the magnitudes to their positions. The magnitude at i is the projected value at i's sorted position. |
| Owl.KeepsMagnitudeOrder | pysap/plugins/mri/parallel_mri_online/proximity.py:457-472 | For a non-increasing projection, an entry strictly larger in magnitude than another stays at least as large. |
| Owl.ClipKeepsNonIncreasing | pysap/plugins/mri/parallel_mri_online/proximity.py:463-464 | The y_min = 0 clip keeps a non-increasing sequence non-increasing. |
| Owl.ZeroThresholdIsIdentity | pysap/plugins/mri/parallel_mri_online/proximity.py:457-472 | Corrected sign. With threshold 0 and a projection that fixes non-increasing input, the prox is the identity, for every length. |
| Owl.SignAsWritten | pysap/plugins/mri/parallel_mri_online/proximity.py:470 | data / \|data\| is NaN exactly at 0 and is the sign elsewhere. |
| Owl.ProxOwlAsWritten | pysap/plugins/mri/parallel_mri_online/proximity.py:457-472 | The code as written succeeds exactly when the corrected prox does. It yields NaN exactly at zero entries and the corrected value elsewhere. |
| Owl.OneEntryAgainstArray | pysap/plugins/mri/parallel_mri_online/proximity.py:457-472 | One entry x against a threshold array v: an empty v fails; otherwise the result is sign(x) * max(p[0], 0), where p is the projection of the differences abs(x) - v[k]. |
| Owl.ApplySignsAsWritten | pysap/plugins/mri/parallel_mri_online/proximity.py:470-472 | Multiplying by data / \|data\| gives NaN exactly at zero entries. Every other entry is the corrected signed magnitude. |
| Owl.ZeroEntriesBecomeNaN | pysap/plugins/mri/parallel_mri_online/proximity.py:470-472 | [0.0, 0.0] with threshold 0 gives [NaN, NaN] as written and [0.0, 0.0] corrected. |
| Owl.New | pysap/plugins/mri/parallel_mri_online/proximity.py:429-455 | Without beta the weights are stored as given. With beta the constructor fails exactly for a missing data shape, an unknown mode, or band_based with a plain size. 'all' stores oscar(alpha, beta, data_shape * n_channel), a list of shapes repeated n_channel times. coeff_based stores oscar(alpha, beta, n_channel). band_based stores the band shapes and one OSCAR array per band of n_channel * prod(shape) weights. |
| Owl.BandResult | pysap/plugins/mri/parallel_mri_online/proximity.py:488-492 | The prox of a band reshaped back is an (n_channel x prod(shape)) block. |
| Owl.WriteBlock | pysap/plugins/mri/parallel_mri_online/proximity.py:490-492 | `output[:, start:stop] = block` writes the block and leaves every other column alone. |
| Owl.WriteBand | pysap/plugins/mri/parallel_mri_online/proximity.py:488-493 | One turn of the band loop writes band k's block into its columns. It keeps the earlier bands' columns and the zeros after band k. |
| Owl.OpBandBased | pysap/plugins/mri/parallel_mri_online/proximity.py:481-493 | Built on the corrected-sign prox. band_based succeeds exactly when every zipped band's prox succeeds. It then covers all columns of the bands. Each band's columns hold that band's prox. The columns after the last band stay zero. |
| Owl.OpCoeffBased | pysap/plugins/mri/parallel_mri_online/proximity.py:494-499 | Built on the corrected-sign prox. With one channel and at least one column, coeff_based fails: np.squeeze leaves a 0-d array that cannot be indexed. Otherwise it succeeds exactly when every column's prox succeeds, and column j of the output is the prox of column j. |
| Owl.Op | pysap/plugins/mri/parallel_mri_online/proximity.py:474-500 | Built on the corrected-sign prox. An unknown mode fails. band_based needs stored band shapes. Per-band weights cannot be multiplied in 'all' or 'coeff_based'. 'all' is the prox of the flattened data. coeff_based is the column-wise prox, and fails on one channel. |
| Owl.GetCost | pysap/plugins/mri/parallel_mri_online/proximity.py:502-517 | The cost is always 0 (after a warning). |
| KSupport.Theta | pysap/plugins/mri/parallel_mri_online/proximity.py:573-580 | theta_i lies in [0, 1]. |
| KSupport.ThetaCases | pysap/plugins/mri/parallel_mri_online/proximity.py:573-580 | theta is 1 above 1, the affine value v in [0, 1], and 0 below 0. |
| KSupport.ThetaMonotone | pysap/plugins/mri/parallel_mri_online/proximity.py:573-580 | theta does not decrease in alpha for a non-negative magnitude. |
| KSupport.ComputeTheta | pysap/plugins/mri/parallel_mri_online/proximity.py:554-580 | theta is computed entry by entry on \|w_i\|. |
| KSupport.ThetaSumMonotone | pysap/plugins/mri/parallel_mri_online/proximity.py:573-580 | sum(theta(alpha)) lies in [0, len(w)] and does not decrease in alpha, which is what the binary search relies on. |
| KSupport.ThetaAffine | pysap/plugins/mri/parallel_mri_online/proximity.py:573-580 | On [a0, a1] where alpha \|w_i\| - 2 lambda extra crosses neither 0 nor 1, theta_i is affine in alpha: theta(a)(a1 - a0) = theta(a0)(a1 - a) + theta(a1)(a - a0). |
| KSupport.ThetaSumAffine | pysap/plugins/mri/parallel_mri_online/proximity.py:554-580 | When no entry crosses 0 or 1 on [a0, a1], sum(theta) is affine there, in the same form. |
| KSupport.InterpolateAsWritten | pysap/plugins/mri/parallel_mri_online/proximity.py:582-611 | The code as written returns alpha_0 or alpha_1 when its sum is k. Otherwise it computes the line with intercept sum_0 - slope * sum_1. It has no finite value exactly when the grid values or the sums are equal (a division by zero). |
| KSupport.InterpolateAsWrittenF | pysap/plugins/mri/parallel_mri_online/proximity.py:582-611 | numpy's value for the code as written: finite exactly where InterpolateAsWritten is, with the same value. It is nan exactly for equal grid values, and for equal sums the same signed infinity as the corrected interpolation. |
| KSupport.Interpolate | pysap/plugins/mri/parallel_mri_online/proximity.py:582-611 | The corrected interpolation returns an endpoint whose sum is k. Otherwise it returns the alpha where the line through (alpha_0, sum_0) and (alpha_1, sum_1) reaches k. |
| KSupport.InterpolateBetween | pysap/plugins/mri/parallel_mri_online/proximity.py:582-611 | For sums bracketing k strictly, the corrected alpha* lies strictly between alpha_0 and alpha_1. |
| KSupport.InterpolateAsWrittenMissesTarget | pysap/plugins/mri/parallel_mri_online/proximity.py:609 | For k = 1 between (0, 0) and (1, 2), the code as written gives 2.5, whose line value is 5, not 1. The corrected interpolation gives 0.5. |
| KSupport.InterpolateF | pysap/plugins/mri/parallel_mri_online/proximity.py:603-611 | The corrected _interpolate on numpy floats. An endpoint whose sum equals k is returned. A nan sum gives nan. Finite values give the corrected interpolation where it is defined, nan exactly for equal grid values, and an infinity otherwise. A non-finite alpha_0 gives nan. |
| KSupport.InterpolationReachesK | pysap/plugins/mri/parallel_mri_online/proximity.py:582-611 | With no crossing on [a0, a1] and sum_0 <= k <= sum_1, the corrected interpolation is defined and sum(theta(alpha*)) = k, as the docstring promises. |
| Floats.Divide | pysap/plugins/mri/parallel_mri_online/proximity.py:721-722 | a / 0 is inf with the sign of a, or nan for 0 / 0. A non-zero divisor gives the finite quotient, which times the divisor gives a back. |
| Floats.Comparisons | pysap/plugins/mri/parallel_mri_online/proximity.py:646-700 | Each comparison with nan is false both ways. For any other value, `<` and `>=` are complementary, as are `<=` and `>`. `<=` and `>=` both hold exactly at the value itself. |
| KSupport.SortedUnique | pysap/plugins/mri/parallel_mri_online/proximity.py:723 | On finite values, np.sort(np.unique(...)) is strictly increasing with the same set of values. |
| KSupport.SortedUniqueF | pysap/plugins/mri/parallel_mri_online/proximity.py:723 | np.sort(np.unique(...)) on floats is strictly increasing in the order -inf < finite < +inf < nan, with the same set of values. |
| KSupport.Grid | pysap/plugins/mri/parallel_mri_online/proximity.py:719-722 | The candidate grid holds 2 len(w) values. Entry i is finite exactly when w_i is not 0, and then times \|w_i\| it gives 2 lambda extra. Entry len(w) + i gives that plus 1. A zero w_i gives c / 0 and (c + 1) / 0. |
| KSupport.ThetaSumF | pysap/plugins/mri/parallel_mri_online/proximity.py:554-580 | At a finite alpha the theta sum is the real sum. At inf or nan it is nan for a non-empty w. |
| KSupport.SumAt | pysap/plugins/mri/parallel_mri_online/proximity.py:641-643 | The sum at a Python index exists exactly when the index is valid, and is the theta sum at that grid value. |
| KSupport.BinarySearch | pysap/plugins/mri/parallel_mri_online/proximity.py:613-701 | With numpy comparisons (false against nan): the loop runs at most len(alpha) times, and a found pair is alpha[mid], alpha[mid + 1]. The first check gives mid 0 when the sum at alpha[0] reaches k, otherwise len - 2 when the sum at the last index stays below k. A pair found by the loop carries the sums at that pair, which bracket k or meet the 1e-4 test. An invalid index in the first check is an IndexError. |
| KSupport.AlphaStar | pysap/plugins/mri/parallel_mri_online/proximity.py:703-727 | _find_alpha's value for a search outcome. A found pair gives its interpolation. The -1 sentinel cannot be unpacked into four values, which fails. An IndexError propagates. |
| KSupport.FindAlpha | pysap/plugins/mri/parallel_mri_online/proximity.py:703-727 | Built on the corrected interpolation. The search's outcome on the sorted grid, with adjacency and sums as BinarySearch states, and alpha* as AlphaStar gives for it. When the pair's sums bracket k, alpha* is finite and sum(theta(alpha*)) = k. |
| KSupport.AlphaStarReachesK | pysap/plugins/mri/parallel_mri_online/proximity.py:703-727 | For every search outcome on the grid whose pair brackets k, alpha* is finite and sum(theta(alpha*)) = k. |
| KSupport.PairReachesK | pysap/plugins/mri/parallel_mri_online/proximity.py:613-701 | A pair of neighbouring grid values with sums strictly around k holds no crossing between them, so the interpolation reaches k. The pair mid = -1 (largest value, smallest value) cannot have sums in that order. |
| KSupport.AdjacentNoCrossing | pysap/plugins/mri/parallel_mri_online/proximity.py:719-723 | Between two neighbouring finite values of the sorted grid, no alpha \|w_i\| - c crosses 0 or 1. |
| KSupport.Shrink | pysap/plugins/mri/parallel_mri_online/proximity.py:736-738 | x theta / (theta + 2 lambda extra) keeps the length. Each entry is finite exactly when its denominator is not 0. A non-finite alpha* makes every entry nan. For non-negative lambda * extra every finite entry keeps its sign and does not grow. |
| KSupport.ShrinkOne | pysap/plugins/mri/parallel_mri_online/proximity.py:738 | x t / (t + c) is finite exactly when t + c is not 0, and then times t + c gives x t. |
| KSupport.Op | pysap/plugins/mri/parallel_mri_online/proximity.py:729-739 | Built on the corrected interpolation. alpha* is what _find_alpha gives on the magnitudes for some search outcome, with sum(theta(alpha*)) = k when that outcome brackets k. op succeeds exactly when alpha* does, with the same error otherwise. The result is the shrink at alpha*. |
| KSupport.FindQStart | pysap/plugins/mri/parallel_mri_online/proximity.py:757-769 | The particular cases give q = 0 or k - 1, and otherwise (k - 1) // 2. An empty input is an IndexError. |
| KSupport.FindQ | pysap/plugins/mri/parallel_mri_online/proximity.py:741-782 | For every k the loop never runs, and q is the value of the particular cases or (k - 1) // 2. |
| KSupport.LastSliceSum | pysap/plugins/mri/parallel_mri_online/proximity.py:767 | sorted_data[-1:], the slice the second particular case reads when k = 0, sums to sorted_data[-1]. So for k = 0 that case holds and the loop never runs. |
| Sparse2D.Validate | sparse2d/python/transform.hpp:116-156 | Each of the four range checks fails with its own error, exactly when it is the first check to fail. On success mr_transform is type - 1, the lifting type is stored as given, and the norm is L2 exactly when use_l2_norm. The undecimated non-orthogonal filter is type - 1 when in range and the default otherwise. |
| Sparse2D.ValidateAcceptsExactly | sparse2d/python/transform.hpp:116-156 | The constructor accepts exactly the argument lists that pass the four range checks and both cross-checks. |
| Sparse2D.AcceptedIsConsistent | sparse2d/python/transform.hpp:117-156 | An accepted configuration uses a non-default lifting type only with the lifting transform. It uses the L2 norm or a non-7/9 filter only with a Mallat transform. Its transform code lies in [0, NBR_TOT_TRANSFORM] and its scales in [2, MAX_SCALE]. |
| Sparse2D.Alloc | sparse2d/python/transform.hpp:223-236 | mr.alloc uses the image size and the settings. It gets an analysis filter bank only for the Mallat transforms and a lifting scheme only for the lifting transform. |
| Sparse2D.InsertBands | sparse2d/python/transform.hpp:277-280 | Inserting bands replaces the first len(mr_data) bands and keeps the others. |
| Sparse2D.InsertOwnBands | sparse2d/python/transform.hpp:277-280 | Inserting the bands the object already holds changes nothing. |
| Sparse2D.InsertBandsIdempotent | sparse2d/python/transform.hpp:277-280 | Inserting the same bands twice is inserting them once. |
| Sparse2D.MRTransform.constructor | sparse2d/python/transform.hpp:80-157 | An accepted configuration gives an object with nothing allocated, mr_initialized false and an empty output path. |
| Sparse2D.MRTransform.Create | sparse2d/python/transform.hpp:80-157 | Construction fails exactly when validation fails, with the same error. On success nothing is allocated yet. |
| Sparse2D.MRTransform.Save | sparse2d/python/transform.hpp:164-177 | Save fails exactly when the output path is empty. |
| Sparse2D.MRTransform.SetOpath | sparse2d/python/transform.hpp:54 | set_opath replaces the output path and leaves mr and mr_initialized unchanged. |
| Sparse2D.MRTransform.Transform | sparse2d/python/transform.hpp:210-266 | The first call allocates mr for the image's size and sets mr_initialized. Later calls keep the allocation, even for another image size. The bands are the analysis of the image, returned in order. With `save`, an empty path fails after the bands have changed. |
| Sparse2D.MRTransform.Reconstruct | sparse2d/python/transform.hpp:269-288 | The given bands replace the first bands of mr, the rest are kept, and the image is the synthesis of the updated mr. |

## Left out

- The SVD, isotonic regression, argsort, the square root of `np.linalg.norm`, `_oscar_weights`, `get_filter_bank` and the MultiResol analysis and synthesis are external. Each is a function parameter, constrained by what the code relies on: an SVD reconstructs its patch, argsort is a permutation that sorts, and the projection keeps the length.
- Floating point is modelled as exact reals: no rounding and no overflow. KSupport carries inf and nan as `Float` values. ElasticNet's zero denominator is the error outcome `ZeroDivision`, and the as-written OWL sign is `None` at 0.
- Signed zeros are not distinguished, except where InterpolateF picks the sign of an infinite alpha*. A theta sum is never inf, since theta lies in [0, 1].
- np.unique keeping a single nan follows numpy 1.21 and later.
- Complex data: the parallel-MRI coefficients are complex, and there np.abs is the modulus and the OWL sign is a phase. Every operator here works on real data.
- joblib `Parallel` branches of NuclearNorm.op: only the sequential loop is modelled. It computes the same patches.
- NuclearNorm patch extraction and reconstruction (`extract_patches_2d`, `reconstruct_*_patches_2d`): the patches are given as an array, and op's result is the patch array it updates.
- NuclearNorm.ProxPatchShrinks: the orthonormality of u and vh is not modelled. The sum of the singular values is the nuclear norm only for an orthonormal SVD.
- NuclearNorm.GetCost: the parallel branches are an error outcome. One calls the nonexistent `_cost_nuclear_norm`; the other adds a list to a number.
- `print`, `warnings` and `cout` output, `Info`, the `verbose` messages and the OpenMP thread setup (transform.hpp:108-114).
- Owl.ProxOwl: on an empty input, sklearn's isotonic_regression validates its input and refuses an empty array. The projection is a parameter that keeps the length, so that check is not modelled.
- Owl: `mode is 'all'` compares strings by identity; the model compares them by value.
- Owl.Op: in 'all' mode the result is the flat vector that the source returns, not reshaped.
- Owl.Op: a `raise` of a plain string is an error outcome. For band_based, the ensures states the success shape only; the band-by-band content is OpBandBased's contract.
- KSupport.Op: the input is the flattened array. The reshape back keeps every entry in place (Layout.FlattenReshape).
- KSupport.Op: built on the corrected interpolation (Findings, line 609). As written, alpha* uses the intercept sum_0 - slope * sum_1. The weights are a scalar; the source also accepts an array broadcast per entry.
- KSupport.FindAlpha: built on the corrected interpolation (Findings, line 609). The code as written returns the wrong-intercept alpha*, which InterpolateAsWritten models.
- Owl.OpBandBased: built on the corrected-sign prox (Findings, line 470). As written, every zero entry of a band gives nan.
- Owl.OpCoeffBased: built on the corrected-sign prox (Findings, line 470). As written, every zero entry gives nan.
- Owl.Op: built on the corrected-sign prox (Findings, line 470). As written, every zero entry gives nan in every mode.
- ElasticNet.Op: the weights are two scalars. The source documents np.ndarray weights broadcast per entry.
- GroupLasso.Op: the weight is a scalar. The source also accepts an array broadcast per column.
- SparseGroupLasso.Op: the weights are scalars. The source also accepts arrays.
- SparseGroupLasso.GetCost: the L1 term takes `linear_op` as the identity, the default. Another linear operator is not modelled.
- NuclearNorm.Op: the weight is a scalar. The source documents an np.ndarray.
- k_support_norm.get_cost is not part of this model.
- The fourier.py operators, the test suite and the example scripts are not part of this model.
- Sparse2D.MRTransform.Reconstruct: requires as many bands in mr as are inserted. MultiResol::insert_band does not check that bound.
- Sparse2D: the pyramidal correction `mr_correct_pyr` is folded into the analysis parameter.
- Sparse2D: writing the MultiResol file in `Save` is I/O and is not modelled.

## Findings

| source | as written | input that shows it | evidently intended | confidence | as-written member | corrected member |
|---|---|---|---|---|---|---|
| pysap/plugins/mri/parallel_mri_online/proximity.py:609 | `b = sum_0 - slope * sum_1` | k = 1, (alpha_0, sum_0) = (0, 0), (alpha_1, sum_1) = (1, 2): gives 2.5, where the line is at 5 | `b = sum_0 - slope * alpha_0`, giving 0.5 | not executed | KSupport.InterpolateAsWritten, KSupport.InterpolateAsWrittenMissesTarget | KSupport.Interpolate, KSupport.InterpolateBetween |
| pysap/plugins/mri/parallel_mri_online/proximity.py:470 | `sign_data = data / np.abs(data)` | data = [0.0, 0.0], threshold 0: result [nan, nan] | np.sign(data): zero entries stay 0 | not executed | Owl.ProxOwlAsWritten, Owl.ZeroEntriesBecomeNaN | Owl.ProxOwl, Owl.ZeroThresholdIsIdentity |
| pysap/plugins/mri/parallel_mri_online/proximity.py:416 | `self.prox_op_l2.cost(data)` on a GroupLasso, which only defines `get_cost` | any data: AttributeError | the L1 cost plus `self.prox_op_l2.get_cost(data)` | not executed | SparseGroupLasso.GetCostAsWritten, SparseGroupLasso.GetCostAsWrittenFails | SparseGroupLasso.GetCost |
