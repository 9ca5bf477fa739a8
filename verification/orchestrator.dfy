/** `SKAT_Base.test`: score a batch of phenotypes, then map every score to a
    p-value with the variant's `compute_p_value`, given here as a
    parameter that may raise. */
module Orchestrator {
  import opened Results
  import opened Matrices
  import opened Engines
  import opened Scores
  import opened PValues

  /** The return value of `test`: the p-values, or with `return_scores` the
      pair (p-values, scores). */
  datatype TestOutput<S, P> = PValues(pvals: seq<P>) | PValuesAndScores(pvals: seq<P>, scores: seq<S>)

  /** The loop `for i, r in enumerate(scores): pvals[i] = compute_p_value(r)`.
      The first exception `compute_p_value` raises ends the loop and is
      passed on. */
  method PValuesOf<S, P>(scores: seq<S>, computePValue: S -> Result<P>) returns (pvals: Result<seq<P>>)
    ensures pvals.Err? <==> exists i :: 0 <= i < |scores| && computePValue(scores[i]).Err?
    ensures pvals.Err? ==>
      exists i :: 0 <= i < |scores| && computePValue(scores[i]) == Err(pvals.error) &&
        forall j :: 0 <= j < i ==> computePValue(scores[j]).Ok?
    ensures pvals.Ok? ==> |pvals.value| == |scores|
    ensures pvals.Ok? ==> forall i :: 0 <= i < |scores| ==> computePValue(scores[i]) == Ok(pvals.value[i])
  {
    var done := [];
    var i := 0;
    while i < |scores|
      invariant 0 <= i <= |scores|
      invariant |done| == i
      invariant forall j :: 0 <= j < i ==> computePValue(scores[j]) == Ok(done[j])
    {
      var pv := computePValue(scores[i]);
      if pv.Err? {
        return Err(pv.error);
      }
      done := done + [pv.value];
      i := i + 1;
    }
    return Ok(done);
  }

  /** The part of `test` after `compute_scores`. */
  method TestScores<S, P>(scores: seq<S>, computePValue: S -> Result<P>, returnScores: bool)
      returns (out: Result<TestOutput<S, P>>)
    ensures out.Err? <==> exists i :: 0 <= i < |scores| && computePValue(scores[i]).Err?
    ensures out.Err? ==>
      exists i :: 0 <= i < |scores| && computePValue(scores[i]) == Err(out.error) &&
        forall j :: 0 <= j < i ==> computePValue(scores[j]).Ok?
    ensures out.Ok? ==> |out.value.pvals| == |scores|
    ensures out.Ok? ==> forall i :: 0 <= i < |scores| ==> computePValue(scores[i]) == Ok(out.value.pvals[i])
    ensures out.Ok? ==> (out.value.PValuesAndScores? <==> returnScores)
    ensures out.Ok? && out.value.PValuesAndScores? ==> out.value.scores == scores
  {
    var pvals :- PValuesOf(scores, computePValue);
    if returnScores {
      out := Ok(PValuesAndScores(pvals, scores));
    } else {
      out := Ok(PValues(pvals));
    }
  }

  /** `test(phenotypes, return_scores)` on a constructed engine. `projY` is
      numpy's covariate projection of the phenotypes (see
      `Scores.Residual`). A phenotype matrix with the wrong row count fails
      in `compute_scores`; otherwise the first column whose p-value raises
      makes `test` raise. */
  method Test<P>(e: Engine, y: Mat, projY: Mat, computePValue: Stat -> Result<P>, returnScores: bool)
      returns (out: Result<TestOutput<Stat, P>>)
    requires Valid(e)
    requires projY.rows == y.rows && projY.cols == y.cols
    ensures out.Err? <==>
      y.rows != e.n || exists j :: 0 <= j < y.cols && computePValue(ColumnScore(e, y, projY, j)).Err?
    ensures y.rows != e.n ==> out == Err(ShapeAssertion)
    ensures out.Err? && y.rows == e.n ==>
      exists j :: 0 <= j < y.cols && computePValue(ColumnScore(e, y, projY, j)) == Err(out.error) &&
        forall l :: 0 <= l < j ==> computePValue(ColumnScore(e, y, projY, l)).Ok?
    ensures out.Ok? ==> |out.value.pvals| == y.cols
    ensures out.Ok? ==> forall j :: 0 <= j < y.cols ==>
      computePValue(ColumnScore(e, y, projY, j)) == Ok(out.value.pvals[j])
    ensures out.Ok? ==> (out.value.PValuesAndScores? <==> returnScores)
    ensures out.Ok? && returnScores ==> out.value.scores == ComputeScores(e, y, projY).value
  {
    var scores :- ComputeScores(e, y, projY);
    out := TestScores(scores, computePValue, returnScores);
  }

  /** `test` of `RL_SKAT_Low_Rank` and `RL_SKAT_Full_Kernel`: the scores
      followed by the recalibrated p-values. It raises on the phenotype
      shape; otherwise, as soon as there is a column, it raises the division
      error when n = p and the `ones` error when q < 0. Each finite score r
      gets the Davies value of the weights for r. */
  method RecalibratedTest(e: Engine, y: Mat, projY: Mat, davies: (real, seq<real>) -> real,
                          nonFinitePValue: real, returnScores: bool)
      returns (out: Result<TestOutput<Stat, real>>)
    requires Valid(e)
    requires projY.rows == y.rows && projY.cols == y.cols
    ensures out.Ok? <==> y.rows == e.n && (y.cols == 0 || (e.n != e.P() && e.q >= 0))
    ensures y.rows != e.n ==> out == Err(ShapeAssertion)
    ensures y.rows == e.n && y.cols > 0 && e.n == e.P() ==> out == Err(ZeroDivision)
    ensures y.rows == e.n && y.cols > 0 && e.n != e.P() && e.q < 0 ==> out == Err(NegativeDimension)
    ensures out.Ok? ==> |out.value.pvals| == y.cols
    ensures out.Ok? ==> forall j :: 0 <= j < y.cols && ColumnScore(e, y, projY, j).Finite? ==>
      out.value.pvals[j] == davies(0.0, EngineWeights(e, ColumnScore(e, y, projY, j).value).value)
    ensures out.Ok? ==> (out.value.PValuesAndScores? <==> returnScores)
  {
    out := Test(e, y, projY, (s: Stat) => StatPValue(e, s, davies, nonFinitePValue), returnScores);
    if y.rows == e.n && y.cols > 0 {
      assert StatPValue(e, ColumnScore(e, y, projY, 0), davies, nonFinitePValue).Err? <==> e.n == e.P() || e.q < 0;
    }
  }
}
