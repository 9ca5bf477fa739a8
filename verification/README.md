# RL-SKAT: a Dafny model of the recalibrated SKAT bookkeeping

RL-SKAT computes p-values for kernel association tests (SKAT). A test object
takes a random-effects factor Z (low-rank variant) or a kernel matrix K
(full-kernel variant), plus optional fixed covariates and an intercept. It
reduces the covariate-projected kernel to a spectrum `phis`, a rank `k` and a
null-overlap dimension `q`. `test` scores each phenotype column and maps every
score to a p-value. The p-value comes from a Davies tail probability of a
recalibrated weight vector: `phis[:k]` shifted by `r/(n-p)`, followed by `q`
copies of `-r/(n-p)`.

This project models the discrete layer of `rl-skat.py` around the numerical
library calls. Scalars are Dafny `real`s. Matrices are `Matrices.Mat`, a
`seq<seq<real>>` with an explicit shape. The outputs of numpy/scipy routines
(`svdvals`, `eigvalsh`, the projections built from `pinv`) are parameters of
the constructors and of `compute_scores`. The Davies routine and
`compute_p_value` are function parameters.

Modules, leaf first:

- `Results`: `Option`, `Result` and the exceptions the modelled code raises:
  the `hstack` row mismatch, a failed shape `assert`, division by zero in
  `float(r)/(n-p)`, and `numpy.ones(q)` with `q < 0`.
- `Sums`: finite sums with linearity and exchange of summation order.
- `Matrices`: shaped matrices, `ones`, `hstack`, column dot products, and
  the Gram predicate K = Z·Zᵀ.
- `Spectra`: squaring, zero padding, thresholding, the descending sort, and
  counting entries above a bound.
- `Covariates`: `process_covariates`.
- `Engines`: the two constructors and the facts about `k` and `q`.
- `Scores`: both `compute_scores` formulas. Includes the exact agreement of
  the two variants when K = Z·Zᵀ without covariates.
- `PValues`: the recalibrated weight vector shared by `RL_SKAT_Low_Rank` and
  `RL_SKAT_Full_Kernel`, `compute_p_value` on one score, and the exact
  weights of the Chen variants without covariates. Includes when the two
  agree, and a case where they differ.
- `Orchestrator`: `test`, with a `compute_p_value` that may raise, and the
  whole recalibrated test put together.

Behaviour of the code worth noting:

- A covariate matrix whose row count is not n is rejected in one of two
  ways. With an intercept, `hstack` rejects it. Without one, the shape
  `assert` does. Neither is a dedicated shape error.
- With covariates, `q` counts the raw singular values of `[Z|X]` (or
  `[K|X]`) above the threshold. Without covariates it counts the entries of
  `phis` above the threshold, and these are squared singular values in the
  low-rank case.
- The full-kernel spectrum is not guaranteed non-negative when the
  threshold is negative. Entries of `eigvalsh` between the threshold and 0
  survive.
- `k` counts entries of `phis` above 0, but `q` (without covariates) counts
  entries above the threshold. An entry exactly equal to the threshold
  survives rounding, so it counts towards `k` and not towards `q`. Each such
  entry makes `k + q` exceed n by one, and the weight vector gets one entry
  too many (`Engines.NullDimensionExcess`).
- `compute_p_value` raises `ZeroDivisionError` when n = p and `numpy.ones`
  rejects a negative q. Both happen for every score, so `test` raises as
  soon as there is one phenotype column.

## Model

| member | source | states |
|---|---|---|
| Covariates.ProcessCovariates | rl-skat.py:12-32 | Rejects the covariates exactly when their row count is not n. The error is the hstack error with an intercept and the shape assertion without one. Otherwise p is 0 with neither covariates nor intercept, 1 for the intercept alone, and c + 1 for c columns plus an intercept. X has n rows, keeps the supplied columns first and ends with a column of ones. |
| Matrices.HStack | rl-skat.py:22 | The stacked matrix has the rows of both inputs, the columns of the first, then the columns of the second. |
| Matrices.Ones | rl-skat.py:20 | The intercept column: the given shape, every entry 1. |
| Spectra.Squares | rl-skat.py:82 | Squared singular values: same length, entry i is the square of value i, all non-negative. |
| Spectra.PadZeros | rl-skat.py:85 | Padding to length n keeps the original prefix and adds only zeros. |
| Spectra.ZeroBelow | rl-skat.py:88 | Thresholding keeps the length and every entry at or above tau, and sets every entry below tau to 0, negative ones included. Each entry ends up 0 or at least tau, and non-negative when tau ≥ 0. |
| Spectra.ZeroBelowIdempotent | rl-skat.py:88 | Thresholding a thresholded sequence again changes nothing. |
| Spectra.SortDescending | rl-skat.py:89 | `sort(...)[::-1]` gives a non-increasing permutation (same multiset) of its input. |
| Spectra.SortedPermutationUnique | rl-skat.py:89 | Two non-increasing sequences with the same multiset of values are equal. So any correct descending sort, numpy's included, gives the same spectrum. |
| Spectra.SortDescendingIdempotent | rl-skat.py:89 | Sorting an already descending spectrum returns it unchanged. |
| Spectra.LowRankSpectrum | rl-skat.py:82-89 | The low-rank spectrum has length exactly n. It is non-increasing and non-negative for every threshold, and each entry is 0 or at least tau. It is a permutation of the thresholded, padded squares. |
| Spectra.FullKernelSpectrum | rl-skat.py:163-167 | The full-kernel spectrum has one entry per eigenvalue and is non-increasing. Each entry is 0 or at least tau, and all entries are non-negative when tau ≥ 0. It is a permutation of the thresholded eigenvalues. |
| Spectra.FullKernelSpectrumIdempotent | rl-skat.py:163-167 | Post-processing an already post-processed spectrum leaves it unchanged. |
| Spectra.CountAbove | rl-skat.py:92 | `sum(s > t)` is at most the length of s. |
| Spectra.CountAbovePermutation | rl-skat.py:89-92 | The count of entries above a bound depends only on the multiset of values. Sorting therefore does not change k. |
| Spectra.CountAboveMonotone | rl-skat.py:92-100 | Raising the bound never increases the count. |
| Spectra.LowRankPositiveCount | rl-skat.py:82-92 | In the low-rank case, k equals the number of squared singular values that survive thresholding as positive. Padding and sorting add none. |
| Spectra.PositivePrefix | rl-skat.py:92 | In a descending non-negative sequence, the first `count(> 0)` entries are positive and all later entries are 0. |
| Spectra.CountAboveSplit | rl-skat.py:92-100 | For entries that are 0 or at least a positive tau: count(> 0) = count(> tau) + the number of entries equal to tau. |
| Engines.NewLowRank | rl-skat.py:63-100 | Fails exactly when the covariate rows differ from n = rows of Z. A success is a valid engine with k = count(phis > 0) and q given by the two branches of lines 94-100. A supplied spectrum is kept unchanged. A computed one has length n, is descending and non-negative, and has entries that are 0 or at least tau. With a computed spectrum or with covariates, 0 ≤ q ≤ n. Without covariates, with a computed spectrum and tau ≥ 0, q ≥ n − k. |
| Engines.NewFullKernel | rl-skat.py:140-178 | Fails with the shape assertion for a non-square K, and otherwise fails exactly on a covariate row mismatch. Without covariates the projected kernel is K itself. q is given by the two branches of lines 172-178. A computed spectrum has n entries, is descending, has entries that are 0 or at least tau, and is non-negative for tau ≥ 0. With a computed spectrum or with covariates, 0 ≤ q ≤ n. Without covariates, with a computed spectrum and tau ≥ 0, q ≥ n − k. |
| Engines.NullDimension | rl-skat.py:94-100 | q ≤ n always. q ≥ 0 when the counted sequence (phis without covariates, the singular values of B with them) has at most n entries. |
| Engines.RankSplitsSpectrum | rl-skat.py:92 | For a valid engine with a descending non-negative spectrum: 0 ≤ k ≤ \|phis\|, `phis[:k]` are exactly the positive entries, and the rest are 0. |
| Engines.NullDimensionBounds | rl-skat.py:100 | Without covariates, with \|phis\| ≤ n and tau ≥ 0: n − k ≤ q ≤ n. |
| Engines.NullDimensionExcess | rl-skat.py:92-100 | k uses `> 0` and q uses `> tau`. Without covariates, with tau > 0, q = n − k + the number of entries exactly equal to tau. |
| Engines.SuppliedSpectrumRoundTrip | rl-skat.py:78-89 | Supplying the spectrum the low-rank constructor would compute gives the same test object as omitting it. |
| Scores.Scaled | rl-skat.py:118 | `num / den * (n - p)` is non-finite exactly when den = 0. It is non-negative for num ≥ 0, den > 0 and n ≥ p, and for n ≠ p it is 0 exactly when num is 0. |
| Scores.LowRankNumerator | rl-skat.py:115 | ‖Zᵀ·y‖² is non-negative. |
| Scores.ComputeScores | rl-skat.py:104-118 | Fails with the shape assertion exactly when the phenotype rows differ from n. Otherwise it gives one statistic per phenotype column. |
| Scores.ScoreDependsOnOwnColumn | rl-skat.py:104-118 | Two phenotype matrices (and their projections) that agree in column j and column j′ get the same score there, whatever their other columns hold. This holds for both variants. |
| Scores.LowRankScoreNonNegative | rl-skat.py:115-118 | A low-rank score with a positive denominator ‖p(y)‖² and n ≥ p is finite and non-negative. |
| Scores.LowRankOrthogonalScoresZero | rl-skat.py:115-118 | A low-rank score is exactly 0 when p(y) is orthogonal to every column of Z and the denominator is non-zero. |
| Scores.OrthogonalPhenotypeScoresZero | rl-skat.py:115-118 | Worked case: n = 4, Z = the first two identity columns, no covariates, y = (0,0,1,1). The single score is 0. |
| Scores.GramQuadraticForm | rl-skat.py:187 | yᵀ·(Z·Zᵀ)·y = ‖Zᵀ·y‖² for every column y. |
| Scores.FullKernelMatchesLowRank | rl-skat.py:181-193 | Without covariates, a full-kernel test on K = Z·Zᵀ and a low-rank test on Z give identical scores, errors included. |
| PValues.RecalibratedWeights | rl-skat.py:121 | n = p raises the division error. Otherwise q < 0 raises the `ones` error. Otherwise the weights have length k + q, entry i < k is phis[i] − r/(n−p), and every later entry is −r/(n−p). |
| PValues.RecalibratedPValue | rl-skat.py:120-122 | The p-value is the Davies routine at 0 on the recalibrated weights. It fails exactly when the weights fail. |
| PValues.WeightsNonIncreasing | rl-skat.py:121 | For a descending non-negative spectrum, the weight vector is non-increasing. |
| PValues.WeightsAtZeroStatistic | rl-skat.py:121 | At r = 0 the weights are `phis[:k]` followed by q zeros. |
| PValues.StatPValue | rl-skat.py:120-122 | `compute_p_value` on one entry of the score array. It raises the division error exactly when n = p, otherwise the `ones` error exactly when q < 0, whatever the score. On a finite score r it is the recalibrated p-value for r. |
| PValues.WeightsMatchShiftedSpectrum | rl-skat.py:120-121 | Without covariates, for a spectrum with \|phis\| = n that is descending and non-negative, with entries 0 or at least a positive tau and none equal to tau: q = n − k, and the weights are all of `phis` shifted by r/(n−p). |
| PValues.ChenWeights | rl-skat.py:126-136 | Chen's `alphars` without covariates, given the eigenvalues of M = SZ·SZᵀ or SKS: non-increasing, one entry per eigenvalue, and each value x occurs as often as x + s occurs among the eigenvalues of M. |
| PValues.ShiftPreservesPermutation | rl-skat.py:131-134 | Shifting two rearrangements of the same values gives two rearrangements of the same values. |
| PValues.RecalibrationIsExact | rl-skat.py:120-136 | Without covariates, when `phis` is the descending sort of eigenvalues that are each 0 or above a positive tau, the recalibrated weights equal Chen's exact weights for every r. |
| PValues.LowRankRecalibrationIsExact | rl-skat.py:63-136 | For `RL_SKAT_Low_Rank(Z, add_intercept=False)` with a computed spectrum, when no squared singular value of Z lies in (0, tau], the weights equal Chen's weights built from the squared singular values padded to n. |
| PValues.FullKernelRecalibrationIsExact | rl-skat.py:163-219 | For `RL_SKAT_Full_Kernel(K, add_intercept=False)` with a computed spectrum, when every eigenvalue of K is 0 or above tau, the weights equal Chen's weights built from those eigenvalues. |
| PValues.RecalibrationDiffersBelowThreshold | rl-skat.py:82-136 | A case where the two disagree: n = 1, Z = [[0.5]], tau = 1, r = 1. The recalibrated weights are [−1] and Chen's are [−0.75]. |
| Orchestrator.PValuesOf | rl-skat.py:49-51 | Fails exactly when `compute_p_value` raises on some score, with the exception of the first such score. Otherwise there is one p-value per score, `pvals[i] = compute_p_value(scores[i])`. |
| Orchestrator.TestScores | rl-skat.py:46-56 | Fails as above. Otherwise the p-values are pointwise as above, and the scores are returned unchanged exactly when `return_scores` is set. |
| Orchestrator.Test | rl-skat.py:40-56 | Fails exactly when `compute_scores` rejects the phenotype shape or `compute_p_value` raises on some column's score. In the second case the exception is that of the first such column. Otherwise it gives one p-value per phenotype column, computed from that column's score, plus the scores when requested. |
| Orchestrator.RecalibratedTest | rl-skat.py:40-56 | The recalibrated `test`. It raises the shape assertion on a phenotype row mismatch. With at least one column, it raises the division error when n = p and the `ones` error when q < 0. It succeeds in every other case. Each finite score r gets Davies at 0 on the weights for r. |

## Left out

- Numerical linear algebra: `numpy.linalg.pinv`, `multi_dot`, `scipy.linalg.svdvals` and `numpy.linalg.eigvalsh`. Their results are inputs: `svdSZ`, `svdB`, `eigSKS`, `sks` and `projY`. Only their shapes are assumed, and only as library guarantees: at most n singular values, n eigenvalues, and n×n or n×t arrays. The covariate projection is not proved idempotent or orthogonal.
- `fastlmm.association.tests.Sc.pv_davies_eig`: a function parameter. Nothing is stated about the range of p-values or their monotonicity in r.
- Floating-point rounding: all arithmetic is exact real arithmetic. A zero denominator in a score is the single value `Stat.NonFinite`, not inf versus nan. `-float(r) / (n-p)` is modelled as −(r/(n−p)), which is equal in exact arithmetic.
- `RL_SKAT_Low_Rank_Chen` and `RL_SKAT_Full_Kernel_Chen`: only their weights without covariates appear, as `PValues.ChenWeights`. It is built from given eigenvalues of SZ·SZᵀ or SKS, using the linear-algebra fact that the eigenvalues of M − s·I are those of M lowered by s. With covariates the matrix is SZ·SZᵀ − s·(I − X·X⁺), whose eigenvalues are not a function of the inputs here.
- PValues.WeightsMatchShiftedSpectrum: compares the weights with the thresholded spectrum `phis` shifted, not with Chen's eigenvalues. Agreement with Chen is `PValues.RecalibrationIsExact` and its two constructor forms, which hold only when no eigenvalue lies in (0, tau]. `PValues.RecalibrationDiffersBelowThreshold` shows that the two disagree otherwise.
- The naive p-value of `SKAT_Inexact_Full_Kernel` (the `> 1e-10` filter feeding Davies): its result is purely numeric.
- The dispatcher `RL_SKAT`: it is incomplete in the source. It raises a string literal, reads attributes that do not exist, and never builds a variant.
- `_theoretical_variance`: a stand-alone float formula with no stated contract.
- The meaning of q with covariates: it is modelled as the count of the given singular values of [Z|X] or [K|X] above tau, with nothing further proved.
- Scores.LowRankOrthogonalScoresZero: states only that orthogonality gives a zero score. The converse, that a zero score with a positive denominator forces orthogonality, is not proved.
- One-dimensional phenotype arrays of shape (n,): on these `compute_scores` sums with `axis=0` down to a single number, and `enumerate(scores)` in `test` then raises `TypeError`. Only two-dimensional (n, t) phenotype arrays are modelled.
- PValues.StatPValue: for a non-finite score that raises nothing, the Davies result on non-finite weights is the parameter `nonFinitePValue`. Nothing is said about its value.
- A supplied `phis` is taken unchecked, as in the source. The properties about k, q and the weights require it to be descending and non-negative.
