/** `SKAT_Base.process_covariates`: the fixed-covariate design matrix X,
    with an optional appended intercept column, and its column count p. */
module Covariates {
  import opened Results
  import opened Matrices

  /** `self.X`: absent (`None` in Python), or an n×p matrix. The
      pseudo-inverse X⁺ is computed from it by numpy.linalg.pinv, which this
      model does not represent. */
  datatype Design = NoCovariates | Covariates(x: Mat) {

    /** `self.p`: the number of covariate columns, 0 when X is absent. */
    function P(): nat
    {
      match this
      case NoCovariates => 0
      case Covariates(x) => x.cols
    }
  }

  function ProcessCovariates(n: nat, fixed: Option<Mat>, addIntercept: bool): (d: Result<Design>)
    // the supplied covariates are rejected exactly when their row count is not n
    ensures d.Err? <==> fixed.Some? && fixed.value.rows != n
    ensures fixed.Some? && fixed.value.rows != n ==>
      d.error == (if addIntercept then HStackMismatch else ShapeAssertion)
    // p: 0 without covariates or intercept, 1 for the intercept alone, c + 1 for c columns and an intercept
    ensures d.Ok? ==> d.value.P() == (if fixed.Some? then fixed.value.cols else 0) + (if addIntercept then 1 else 0)
    ensures d.Ok? ==> (d.value.NoCovariates? <==> fixed.None? && !addIntercept)
    // any resulting X has n rows, starts with the supplied columns and ends with the intercept
    ensures d.Ok? && d.value.Covariates? ==> d.value.x.rows == n
    ensures d.Ok? && d.value.Covariates? && fixed.Some? ==>
      forall i, j :: 0 <= i < n && 0 <= j < fixed.value.cols ==> d.value.x.entries[i][j] == fixed.value.entries[i][j]
    ensures d.Ok? && d.value.Covariates? && addIntercept ==>
      forall i :: 0 <= i < n ==> d.value.x.entries[i][d.value.x.cols - 1] == 1.0
  {
    if addIntercept then
      match fixed
      case None => Ok(Covariates(Ones(n, 1)))
      case Some(f) =>
        if f.rows != n then Err(HStackMismatch)
        else
          var x := HStack(f, Ones(n, 1));
          assert forall i :: 0 <= i < n ==> x.entries[i][f.cols + 0] == 1.0;
          Ok(Covariates(x))
    else
      match fixed
      case None => Ok(NoCovariates)
      case Some(f) => if f.rows != n then Err(ShapeAssertion) else Ok(Covariates(f))
  }
}
