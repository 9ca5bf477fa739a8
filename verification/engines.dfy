/** The state a test object computes once at construction:
    `RL_SKAT_Low_Rank.__init__` and `SKAT_Inexact_Full_Kernel.__init__`
    (the latter shared by `RL_SKAT_Full_Kernel`). The numerical library
    results they depend on enter as parameters. */
module Engines {
  import opened Results
  import opened Matrices
  import opened Spectra
  import opened Covariates

  /** Which structure backs the test: the factor Z (n×m) or the kernel K
      (n×n) together with its covariate-projected form S·K·Sᵀ. */
  datatype Structure = LowRank(z: Mat) | FullKernel(k: Mat, sks: Mat)

  /** A constructed test object: n samples, the design, the spectrum `phis`,
      the rank `k` and the null-overlap dimension `q`. */
  datatype Engine = Engine(structure: Structure, n: nat, design: Design, phis: seq<real>, k: nat, q: int) {

    function P(): nat
    {
      design.P()
    }
  }

  /** What every constructed engine satisfies, whoever supplied `phis`. */
  predicate Valid(e: Engine)
  {
    && e.k == CountAbove(e.phis, 0.0)
    && (e.design.Covariates? ==> e.design.x.rows == e.n)
    && match e.structure
       case LowRank(z) => z.rows == e.n
       case FullKernel(k, sks) => k.rows == e.n && k.cols == e.n && sks.rows == e.n && sks.cols == e.n
  }

  /** `k = int(sum(phis > 0))`: the number of positive entries. */
  function Rank(phis: seq<real>): (k: nat)
    ensures k <= |phis|
  {
    CountAbove(phis, 0.0)
  }

  /** `q`. With covariates it is n minus the number of singular values of
      B = [Z|X] (or [K|X]) above `tau`; `svdB` holds those singular values.
      Without covariates it is n minus the number of entries of `phis`
      above `tau`. */
  function NullDimension(n: nat, design: Design, phis: seq<real>, svdB: seq<real>, tau: real): (q: int)
    ensures design.NoCovariates? && |phis| <= n ==> q >= 0
    ensures design.Covariates? && |svdB| <= n ==> q >= 0
    ensures q <= n
  {
    if design.Covariates? then n - CountAbove(svdB, tau) else n - CountAbove(phis, tau)
  }

  /** `RL_SKAT_Low_Rank(Z, fixed_covariates, add_intercept, zero_threshold, phis)`.
      `svdSZ` are the singular values of the projected factor SZ = Z − X·X⁺·Z
      (of Z itself without covariates), at most n of them as
      scipy.linalg.svdvals returns min(n, m); `svdB` are the singular values
      of [Z|X], again at most n of them. A supplied `given` spectrum is taken
      unchecked. */
  function NewLowRank(z: Mat, fixed: Option<Mat>, addIntercept: bool, tau: real, given: Option<seq<real>>,
                      svdSZ: seq<real>, svdB: seq<real>): (r: Result<Engine>)
    requires |svdSZ| <= z.rows && |svdB| <= z.rows
    ensures r.Err? <==> fixed.Some? && fixed.value.rows != z.rows
    ensures r.Ok? ==> Valid(r.value) && r.value.n == z.rows && r.value.structure == LowRank(z)
    ensures r.Ok? ==> r.value.q == NullDimension(r.value.n, r.value.design, r.value.phis, svdB, tau)
    ensures r.Ok? && given.Some? ==> r.value.phis == given.value
    ensures r.Ok? && given.None? ==>
      && |r.value.phis| == z.rows
      && NonIncreasing(r.value.phis) && NonNegative(r.value.phis) && ZeroOrAtLeast(r.value.phis, tau)
    ensures r.Ok? && (given.None? || r.value.design.Covariates?) ==> 0 <= r.value.q <= r.value.n
    ensures r.Ok? && given.None? && r.value.design.NoCovariates? && 0.0 <= tau ==>
      r.value.n - r.value.k <= r.value.q
  {
    var n := z.rows;
    var design :- ProcessCovariates(n, fixed, addIntercept);
    var phis := if given.Some? then given.value else LowRankSpectrum(svdSZ, n, tau);
    assert 0.0 <= tau ==> CountAbove(phis, tau) <= CountAbove(phis, 0.0) by {
      if 0.0 <= tau { CountAboveMonotone(phis, 0.0, tau); }
    }
    Ok(Engine(LowRank(z), n, design, phis, Rank(phis), NullDimension(n, design, phis, svdB, tau)))
  }

  /** `SKAT_Inexact_Full_Kernel(K, fixed_covariates, add_intercept, zero_threshold, phis)`.
      n is the row count of K, which must be square. `sks` is S·K·Sᵀ as
      numpy computes it (used only with covariates; without them it is K
      itself), `eigSKS` its n eigenvalues from numpy.linalg.eigvalsh, and
      `svdB` the at most n singular values of [K|X]. */
  function NewFullKernel(k: Mat, fixed: Option<Mat>, addIntercept: bool, tau: real, given: Option<seq<real>>,
                         sks: Mat, eigSKS: seq<real>, svdB: seq<real>): (r: Result<Engine>)
    requires sks.rows == k.rows && sks.cols == k.rows
    requires |eigSKS| == k.rows && |svdB| <= k.rows
    ensures r.Err? <==> k.cols != k.rows || (fixed.Some? && fixed.value.rows != k.rows)
    ensures k.cols != k.rows ==> r == Err(ShapeAssertion)
    ensures r.Ok? ==> Valid(r.value) && r.value.n == k.rows
    ensures r.Ok? ==> r.value.structure == FullKernel(k, if r.value.design.Covariates? then sks else k)
    ensures r.Ok? ==> r.value.q == NullDimension(r.value.n, r.value.design, r.value.phis, svdB, tau)
    ensures r.Ok? && given.Some? ==> r.value.phis == given.value
    ensures r.Ok? && given.None? ==>
      && |r.value.phis| == k.rows
      && NonIncreasing(r.value.phis) && ZeroOrAtLeast(r.value.phis, tau)
      && (0.0 <= tau ==> NonNegative(r.value.phis))
    ensures r.Ok? && (given.None? || r.value.design.Covariates?) ==> 0 <= r.value.q <= r.value.n
    ensures r.Ok? && given.None? && r.value.design.NoCovariates? && 0.0 <= tau ==>
      r.value.n - r.value.k <= r.value.q
  {
    var n := k.rows;
    if k.cols != n then Err(ShapeAssertion)
    else
      var design :- ProcessCovariates(n, fixed, addIntercept);
      var projected := if design.Covariates? then sks else k;
      var phis := if given.Some? then given.value else FullKernelSpectrum(eigSKS, tau);
      assert 0.0 <= tau ==> CountAbove(phis, tau) <= CountAbove(phis, 0.0) by {
        if 0.0 <= tau { CountAboveMonotone(phis, 0.0, tau); }
      }
      Ok(Engine(FullKernel(k, projected), n, design, phis, Rank(phis), NullDimension(n, design, phis, svdB, tau)))
  }

  /** The leading k entries of a descending, non-negative spectrum are
      exactly its positive entries; all later ones are 0. */
  lemma RankSplitsSpectrum(e: Engine)
    requires Valid(e)
    requires NonIncreasing(e.phis) && NonNegative(e.phis)
    ensures e.k <= |e.phis|
    ensures forall i :: 0 <= i < e.k ==> e.phis[i] > 0.0
    ensures forall i :: e.k <= i < |e.phis| ==> e.phis[i] == 0.0
  {
    PositivePrefix(e.phis);
  }

  /** Without covariates and with a non-negative threshold, q lies between
      n − k and n. */
  lemma NullDimensionBounds(e: Engine, svdB: seq<real>, tau: real)
    requires Valid(e) && e.design.NoCovariates?
    requires e.q == NullDimension(e.n, e.design, e.phis, svdB, tau)
    requires |e.phis| <= e.n
    requires 0.0 <= tau
    ensures e.n - e.k <= e.q <= e.n
  {
    CountAboveMonotone(e.phis, 0.0, tau);
  }

  /** The asymmetry between k (entries above 0) and q (entries above τ):
      without covariates, with a positive threshold and a spectrum whose
      entries are 0 or at least τ, q exceeds n − k by exactly the number of
      entries equal to τ. */
  lemma NullDimensionExcess(e: Engine, svdB: seq<real>, tau: real)
    requires Valid(e) && e.design.NoCovariates?
    requires e.q == NullDimension(e.n, e.design, e.phis, svdB, tau)
    requires 0.0 < tau && ZeroOrAtLeast(e.phis, tau)
    ensures e.q == e.n - e.k + multiset(e.phis)[tau]
  {
    CountAboveSplit(e.phis, tau);
  }

  /** Supplying the spectrum the constructor would compute gives the same
      test object as letting it compute the spectrum. */
  lemma SuppliedSpectrumRoundTrip(z: Mat, fixed: Option<Mat>, addIntercept: bool, tau: real,
                                  svdSZ: seq<real>, svdB: seq<real>)
    requires |svdSZ| <= z.rows && |svdB| <= z.rows
    ensures NewLowRank(z, fixed, addIntercept, tau, Some(LowRankSpectrum(svdSZ, z.rows, tau)), svdSZ, svdB)
         == NewLowRank(z, fixed, addIntercept, tau, None, svdSZ, svdB)
  {
  }
}
