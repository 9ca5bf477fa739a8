/** `compute_p_value` of `RL_SKAT_Low_Rank` and `RL_SKAT_Full_Kernel`
    (the two bodies are identical): the recalibrated weight vector and the
    call of the Davies tail-probability routine on it. */
module PValues {
  import opened Results
  import opened Spectra
  import opened Matrices
  import opened Engines
  import opened Scores

  /** `r/(n-p)`: the statistic scaled by the residual degrees of freedom. */
  function Shift(r: real, n: nat, p: nat): real
    requires n != p
  {
    r / (n - p) as real
  }

  /** `[phis[:k] - r/(n-p), repeat(-r/(n-p), q)]`. Python evaluates
      `r/(n-p)` first, so n == p raises ZeroDivisionError before numpy is
      asked for `ones(q)`, which rejects a negative q. */
  function RecalibratedWeights(phis: seq<real>, k: nat, q: int, n: nat, p: nat, r: real): (w: Result<seq<real>>)
    requires k <= |phis|
    ensures n == p ==> w == Err(ZeroDivision)
    ensures n != p && q < 0 ==> w == Err(NegativeDimension)
    ensures n != p && q >= 0 ==> w.Ok? && |w.value| == k + q
    ensures w.Ok? ==> forall i :: 0 <= i < k ==> w.value[i] == phis[i] - Shift(r, n, p)
    ensures w.Ok? ==> forall i :: k <= i < |w.value| ==> w.value[i] == -Shift(r, n, p)
  {
    if n == p then Err(ZeroDivision)
    else if q < 0 then Err(NegativeDimension)
    else
      var shift := Shift(r, n, p);
      Ok(seq(k, i requires 0 <= i < k => phis[i] - shift) + seq(q, _ => -shift))
  }

  /** The weights of an engine for statistic r. */
  function EngineWeights(e: Engine, r: real): (w: Result<seq<real>>)
    requires Valid(e)
  {
    RecalibratedWeights(e.phis, e.k, e.q, e.n, e.P(), r)
  }

  /** `pv_davies_eig(0, alphars)`, with the Davies routine as a parameter. */
  function RecalibratedPValue(e: Engine, r: real, davies: (real, seq<real>) -> real): (pv: Result<real>)
    requires Valid(e)
    ensures pv.Ok? <==> EngineWeights(e, r).Ok?
    ensures pv.Ok? ==> pv.value == davies(0.0, EngineWeights(e, r).value)
  {
    var w :- EngineWeights(e, r);
    Ok(davies(0.0, w))
  }

  /** `compute_p_value(r)` on one entry of the score array. A finite score
      is the statistic r. A non-finite one (nan or inf) still raises the
      same exceptions, since Python's float division by zero raises for nan
      and inf too; otherwise Davies receives non-finite weights, and its
      answer is the parameter `nonFinitePValue`. */
  function StatPValue(e: Engine, s: Stat, davies: (real, seq<real>) -> real, nonFinitePValue: real): (pv: Result<real>)
    requires Valid(e)
    ensures pv.Err? <==> e.n == e.P() || e.q < 0
    ensures e.n == e.P() ==> pv == Err(ZeroDivision)
    ensures e.n != e.P() && e.q < 0 ==> pv == Err(NegativeDimension)
    ensures s.Finite? ==> pv == RecalibratedPValue(e, s.value, davies)
  {
    match s
    case Finite(r) => RecalibratedPValue(e, r, davies)
    case NonFinite =>
      var _ :- EngineWeights(e, 0.0);
      Ok(nonFinitePValue)
  }

  /** For a descending, non-negative spectrum the weights are descending:
      the shifted positive entries come first, then the q copies of the
      shift. */
  lemma WeightsNonIncreasing(e: Engine, r: real)
    requires Valid(e)
    requires NonIncreasing(e.phis) && NonNegative(e.phis)
    requires EngineWeights(e, r).Ok?
    ensures NonIncreasing(EngineWeights(e, r).value)
  {
    var w := EngineWeights(e, r).value;
    forall i, j | 0 <= i < j < |w| ensures w[i] >= w[j] {
      if j < e.k {
        assert e.phis[i] >= e.phis[j];
      } else if i < e.k {
        assert e.phis[i] >= 0.0;
      }
    }
  }

  /** With r = 0 there is no shift: the weights are the positive spectrum
      followed by q zeros. */
  lemma WeightsAtZeroStatistic(e: Engine)
    requires Valid(e)
    requires EngineWeights(e, 0.0).Ok?
    ensures EngineWeights(e, 0.0).value == e.phis[..e.k] + seq(e.q, _ => 0.0)
  {
    var w := EngineWeights(e, 0.0).value;
    assert w == e.phis[..e.k] + seq(e.q, _ => 0.0);
  }

  /** Every entry lowered by `shift`: the eigenvalues of M − shift·I given
      those of M. Shifting keeps the order. */
  function ShiftedSpectrum(phis: seq<real>, shift: real): (s: seq<real>)
    ensures |s| == |phis|
    ensures forall i :: 0 <= i < |phis| ==> s[i] + shift == phis[i]
    ensures NonIncreasing(phis) ==> NonIncreasing(s)
  {
    seq(|phis|, i requires 0 <= i < |phis| => phis[i] - shift)
  }

  /** Shifting commutes with appending one entry. */
  lemma ShiftedSnoc(init: seq<real>, last: real, shift: real)
    ensures ShiftedSpectrum(init + [last], shift) == ShiftedSpectrum(init, shift) + [last - shift]
  {
    var sa, si := ShiftedSpectrum(init + [last], shift), ShiftedSpectrum(init, shift);
    forall i | 0 <= i < |sa| ensures sa[i] == (si + [last - shift])[i] {
      if i < |init| {
        assert (init + [last])[i] == init[i];
      }
    }
  }

  /** x occurs in the shifted sequence as often as x + shift occurs in the
      original. */
  lemma {:induction false} ShiftedMultiset(a: seq<real>, shift: real, x: real)
    ensures multiset(ShiftedSpectrum(a, shift))[x] == multiset(a)[x + shift]
  {
    if |a| > 0 {
      var init, last := a[..|a| - 1], a[|a| - 1];
      assert a == init + [last];
      ShiftedMultiset(init, shift, x);
      ShiftedSnoc(init, last, shift);
      assert multiset(ShiftedSpectrum(a, shift)) == multiset(ShiftedSpectrum(init, shift)) + multiset{last - shift};
      assert last - shift == x <==> last == x + shift;
    }
  }

  lemma ShiftedMultisetAll(a: seq<real>, shift: real)
    ensures forall x :: multiset(ShiftedSpectrum(a, shift))[x] == multiset(a)[x + shift]
  {
    forall x ensures multiset(ShiftedSpectrum(a, shift))[x] == multiset(a)[x + shift] {
      ShiftedMultiset(a, shift, x);
    }
  }

  /** Shifting two rearrangements of the same values gives two
      rearrangements of the same values. */
  lemma ShiftPreservesPermutation(a: seq<real>, b: seq<real>, shift: real)
    requires multiset(a) == multiset(b)
    ensures multiset(ShiftedSpectrum(a, shift)) == multiset(ShiftedSpectrum(b, shift))
  {
    ShiftedMultisetAll(a, shift);
    ShiftedMultisetAll(b, shift);
    assert forall x :: multiset(ShiftedSpectrum(a, shift))[x] == multiset(ShiftedSpectrum(b, shift))[x];
  }

  /** The `alphars` of `RL_SKAT_Low_Rank_Chen` and `RL_SKAT_Full_Kernel_Chen`
      without covariates: `sort(eigvalsh(M − s·I))[::-1]` for M = SZ·SZᵀ or
      SKS, given the eigenvalues `eigM` of M. The result is descending and
      holds each eigenvalue of M lowered by s, as often as it occurs. */
  function ChenWeights(eigM: seq<real>, s: real): (w: seq<real>)
    ensures |w| == |eigM|
    ensures NonIncreasing(w)
    ensures forall x :: multiset(w)[x] == multiset(eigM)[x + s]
  {
    ShiftedMultisetAll(eigM, s);
    SortDescending(ShiftedSpectrum(eigM, s))
  }

  /** Without covariates, for a spectrum of length n that is descending and
      non-negative, whose entries are 0 or at least the positive threshold
      `tau` and none equal to `tau`: q = n − k, so the recalibrated weights
      are the whole spectrum `phis` shifted by r/(n−p). */
  lemma WeightsMatchShiftedSpectrum(e: Engine, svdB: seq<real>, tau: real, r: real)
    requires Valid(e) && e.design.NoCovariates?
    requires e.q == NullDimension(e.n, e.design, e.phis, svdB, tau)
    requires |e.phis| == e.n && e.n > 0
    requires NonIncreasing(e.phis) && NonNegative(e.phis)
    requires 0.0 < tau && ZeroOrAtLeast(e.phis, tau) && tau !in e.phis
    ensures EngineWeights(e, r) == Ok(ShiftedSpectrum(e.phis, Shift(r, e.n, e.P())))
  {
    assert multiset(e.phis)[tau] == 0;
    NullDimensionExcess(e, svdB, tau);
    RankSplitsSpectrum(e);
    var w := EngineWeights(e, r).value;
    var s := ShiftedSpectrum(e.phis, Shift(r, e.n, e.P()));
    assert |w| == |s|;
    forall i | 0 <= i < |w| ensures w[i] == s[i] {
      if i >= e.k {
        assert e.phis[i] == 0.0;
      }
    }
    assert w == s;
  }

  /** The recalibration agrees with Chen's exact weights when the spectrum
      is the sorted eigenvalue list `eig` of the kernel and no eigenvalue
      lies strictly between 0 and the threshold or on it. */
  lemma RecalibrationIsExact(e: Engine, eig: seq<real>, svdB: seq<real>, tau: real, r: real)
    requires Valid(e) && e.design.NoCovariates?
    requires e.q == NullDimension(e.n, e.design, e.phis, svdB, tau)
    requires |eig| == e.n && e.n > 0
    requires e.phis == SortDescending(eig)
    requires 0.0 < tau
    requires forall i :: 0 <= i < |eig| ==> eig[i] == 0.0 || eig[i] > tau
    ensures EngineWeights(e, r) == Ok(ChenWeights(eig, Shift(r, e.n, e.P())))
  {
    var phis := e.phis;
    forall i | 0 <= i < |phis| ensures phis[i] == 0.0 || phis[i] > tau {
      assert phis[i] in multiset(eig);
    }
    assert tau !in phis;
    WeightsMatchShiftedSpectrum(e, svdB, tau, r);
    var shift := Shift(r, e.n, e.P());
    ShiftPreservesPermutation(phis, eig, shift);
    SortedPermutationUnique(ShiftedSpectrum(phis, shift), SortDescending(ShiftedSpectrum(eig, shift)));
  }

  /** `RL_SKAT_Low_Rank(Z, add_intercept=False)` against
      `RL_SKAT_Low_Rank_Chen`: when no squared singular value of Z lies in
      (0, tau], the recalibrated weights are exactly the descending
      eigenvalues of Z·Zᵀ − r/n·I (the squared singular values padded with
      zeros to n, each lowered by r/n). */
  lemma LowRankRecalibrationIsExact(z: Mat, tau: real, svdSZ: seq<real>, svdB: seq<real>, r: real)
    requires |svdSZ| <= z.rows && |svdB| <= z.rows && z.rows > 0
    requires 0.0 < tau
    requires forall i :: 0 <= i < |svdSZ| ==> !(0.0 < svdSZ[i] * svdSZ[i] <= tau)
    ensures NewLowRank(z, None, false, tau, None, svdSZ, svdB).Ok?
    ensures EngineWeights(NewLowRank(z, None, false, tau, None, svdSZ, svdB).value, r)
         == Ok(ChenWeights(PadZeros(Squares(svdSZ), z.rows), Shift(r, z.rows, 0)))
  {
    var n := z.rows;
    var e := NewLowRank(z, None, false, tau, None, svdSZ, svdB).value;
    var eig := PadZeros(Squares(svdSZ), n);
    forall i | 0 <= i < n ensures eig[i] == 0.0 || eig[i] > tau {
      if i < |svdSZ| {
        assert eig[i] == eig[..|svdSZ|][i] == Squares(svdSZ)[i];
      }
    }
    assert ZeroBelow(eig, tau) == eig;
    SortedPermutationUnique(e.phis, SortDescending(eig));
    RecalibrationIsExact(e, eig, svdB, tau, r);
  }

  /** `RL_SKAT_Full_Kernel(K, add_intercept=False)` against
      `RL_SKAT_Full_Kernel_Chen`: when every eigenvalue of K is 0 or above
      tau, the recalibrated weights are exactly the descending eigenvalues
      of K − r/n·I. */
  lemma FullKernelRecalibrationIsExact(k: Mat, tau: real, eigK: seq<real>, svdB: seq<real>, r: real)
    requires k.cols == k.rows && k.rows > 0
    requires |eigK| == k.rows && |svdB| <= k.rows
    requires 0.0 < tau
    requires forall i :: 0 <= i < |eigK| ==> eigK[i] == 0.0 || eigK[i] > tau
    ensures NewFullKernel(k, None, false, tau, None, k, eigK, svdB).Ok?
    ensures EngineWeights(NewFullKernel(k, None, false, tau, None, k, eigK, svdB).value, r)
         == Ok(ChenWeights(eigK, Shift(r, k.rows, 0)))
  {
    var e := NewFullKernel(k, None, false, tau, None, k, eigK, svdB).value;
    assert ZeroBelow(eigK, tau) == eigK;
    SortedPermutationUnique(e.phis, SortDescending(eigK));
    RecalibrationIsExact(e, eigK, svdB, tau, r);
  }

  /** Below the threshold the two forms differ: for n = 1, Z = [[0.5]] and
      tau = 1, the squared singular value 0.25 is rounded to 0, so at r = 1
      the recalibrated weights are [−1] while Chen's exact weight is
      0.25 − 1 = −0.75. */
  lemma RecalibrationDiffersBelowThreshold()
    ensures EngineWeights(NewLowRank(Matrix(1, 1, [[0.5]]), None, false, 1.0, None, [0.5], []).value, 1.0)
         == Ok([-1.0])
    ensures ChenWeights(PadZeros(Squares([0.5]), 1), Shift(1.0, 1, 0)) == [-0.75]
  {
    assert LowRankSpectrum([0.5], 1, 1.0) == [0.0] by {
      assert ZeroBelow(PadZeros(Squares([0.5]), 1), 1.0) == [0.0];
      assert LowRankSpectrum([0.5], 1, 1.0)[0] in multiset([0.0]);
    }
    var e := NewLowRank(Matrix(1, 1, [[0.5]]), None, false, 1.0, None, [0.5], []).value;
    assert e.k == 0 && e.q == 1 && e.n == 1 && e.P() == 0;
    assert Shift(1.0, e.n, e.P()) == 1.0;
    var w := EngineWeights(e, 1.0).value;
    assert |w| == 1 && w[0] == -1.0;
    assert w == [-1.0];
    var eig := PadZeros(Squares([0.5]), 1);
    assert ChenWeights(eig, 1.0) == [-0.75] by {
      assert eig == [0.25];
      assert multiset(ChenWeights(eig, 1.0))[-0.75] == multiset(eig)[0.25] == 1;
    }
  }
}
