/** `compute_scores` of the low-rank and full-kernel variants: one score
    statistic per phenotype column. */
module Scores {
  import opened Results
  import opened Sums
  import opened Matrices
  import opened Covariates
  import opened Engines

  /** A float64 statistic: numpy division by a zero denominator yields inf
      or nan rather than raising. */
  datatype Stat = Finite(value: real) | NonFinite

  /** `nominator / denominator * (n - p)`. */
  function Scaled(num: real, den: real, dof: int): (s: Stat)
    ensures s.Finite? <==> den != 0.0
    ensures s.Finite? && num >= 0.0 && den > 0.0 && dof >= 0 ==> s.value >= 0.0
    ensures s.Finite? && dof != 0 ==> (s.value == 0.0 <==> num == 0.0)
  {
    if den == 0.0 then NonFinite
    else
      var ratio := num / den;
      assert ratio == 0.0 <==> num == 0.0;
      assert num >= 0.0 && den > 0.0 ==> ratio >= 0.0;
      Finite(ratio * dof as real)
  }

  /** p(y): the phenotypes with the covariate span removed. `projY` is
      `phenotypes - X·X⁺·phenotypes` as numpy computes it; without
      covariates the phenotypes are used as they are. */
  function Residual(e: Engine, y: Mat, projY: Mat): Mat
  {
    if e.design.Covariates? then projY else y
  }

  /** ‖Zᵀ·yⱼ‖²: the sum over the columns c of Z of (Z[:, c] · yⱼ)². */
  function LowRankNumerator(z: Mat, n: nat, y: Mat, j: nat): (num: real)
    ensures num >= 0.0
  {
    var f := (c: nat) => ColumnDot(n, z, c, y, j) * ColumnDot(n, z, c, y, j);
    SumNonNegative(z.cols, f);
    Sum(z.cols, f)
  }

  /** yⱼᵀ·SKS·yⱼ: the sum over i of (SKS·y)[i][j] · y[i][j]. */
  function FullKernelNumerator(sks: Mat, n: nat, y: Mat, j: nat): real
  {
    Sum(n, (i: nat) => Product(n, sks, i, y, j) * At(y, i, j))
  }

  /** The score of phenotype column j. */
  function ColumnScore(e: Engine, y: Mat, projY: Mat, j: nat): Stat
  {
    var dof := e.n - e.P();
    match e.structure
    case LowRank(z) =>
      var r := Residual(e, y, projY);
      Scaled(LowRankNumerator(z, e.n, r, j), ColumnNormSq(e.n, r, j), dof)
    case FullKernel(_, sks) =>
      var den := if e.design.Covariates? then Sum(e.n, (i: nat) => At(projY, i, j) * At(y, i, j))
                 else ColumnNormSq(e.n, y, j);
      Scaled(FullKernelNumerator(sks, e.n, y, j), den, dof)
  }

  /** All columns are scored independently; a phenotype matrix whose row
      count is not n fails the shape assertion. */
  function ComputeScores(e: Engine, y: Mat, projY: Mat): (r: Result<seq<Stat>>)
    requires Valid(e)
    requires projY.rows == y.rows && projY.cols == y.cols
    ensures r.Err? <==> y.rows != e.n
    ensures r.Err? ==> r.error == ShapeAssertion
    ensures r.Ok? ==> |r.value| == y.cols
    ensures r.Ok? ==> forall j :: 0 <= j < y.cols ==> r.value[j] == ColumnScore(e, y, projY, j)
  {
    if y.rows != e.n then Err(ShapeAssertion)
    else Ok(seq(y.cols, j requires 0 <= j < y.cols => ColumnScore(e, y, projY, j)))
  }

  /** Sums over one column see only that column: if column j of `a` and
      column j′ of `b` agree, so do the norms, the dot products with any
      column of another matrix and the products with any row of another
      matrix. */
  lemma ColumnSumsAgree(n: nat, a: Mat, j: nat, b: Mat, j': nat)
    requires forall i: nat :: At(a, i, j) == At(b, i, j')
    ensures ColumnNormSq(n, a, j) == ColumnNormSq(n, b, j')
    ensures forall m: Mat, c: nat :: ColumnDot(n, m, c, a, j) == ColumnDot(n, m, c, b, j')
    ensures forall m: Mat, i: nat :: Product(n, m, i, a, j) == Product(n, m, i, b, j')
  {
    SumExt(n, (i: nat) => At(a, i, j) * At(a, i, j), (i: nat) => At(b, i, j') * At(b, i, j'));
    forall m: Mat, c: nat ensures ColumnDot(n, m, c, a, j) == ColumnDot(n, m, c, b, j') {
      SumExt(n, (i: nat) => At(m, i, c) * At(a, i, j), (i: nat) => At(m, i, c) * At(b, i, j'));
    }
    forall m: Mat, i: nat ensures Product(n, m, i, a, j) == Product(n, m, i, b, j') {
      SumExt(n, (l: nat) => At(m, i, l) * At(a, l, j), (l: nat) => At(m, i, l) * At(b, l, j'));
    }
  }

  /** Each score depends on its own phenotype column only: two phenotype
      matrices (with their projections) that agree in column j and column
      j′ get the same score there, whatever their other columns hold. */
  lemma ScoreDependsOnOwnColumn(e: Engine, y: Mat, projY: Mat, j: nat, y': Mat, projY': Mat, j': nat)
    requires Valid(e)
    requires projY.rows == y.rows && projY.cols == y.cols
    requires projY'.rows == y'.rows && projY'.cols == y'.cols
    requires y.rows == e.n && y'.rows == e.n
    requires j < y.cols && j' < y'.cols
    requires forall i :: 0 <= i < e.n ==> y.entries[i][j] == y'.entries[i][j']
    requires forall i :: 0 <= i < e.n ==> projY.entries[i][j] == projY'.entries[i][j']
    ensures ComputeScores(e, y, projY).value[j] == ComputeScores(e, y', projY').value[j']
  {
    assert forall i: nat :: At(y, i, j) == At(y', i, j');
    assert forall i: nat :: At(projY, i, j) == At(projY', i, j');
    ColumnSumsAgree(e.n, y, j, y', j');
    ColumnSumsAgree(e.n, projY, j, projY', j');
    var r, r' := Residual(e, y, projY), Residual(e, y', projY');
    match e.structure
    case LowRank(z) =>
      var f := (c: nat) => ColumnDot(e.n, z, c, r, j) * ColumnDot(e.n, z, c, r, j);
      var f' := (c: nat) => ColumnDot(e.n, z, c, r', j') * ColumnDot(e.n, z, c, r', j');
      SumExt(z.cols, f, f');
    case FullKernel(_, sks) =>
      SumExt(e.n, (i: nat) => Product(e.n, sks, i, y, j) * At(y, i, j),
                  (i: nat) => Product(e.n, sks, i, y', j') * At(y', i, j'));
      SumExt(e.n, (i: nat) => At(projY, i, j) * At(y, i, j), (i: nat) => At(projY', i, j') * At(y', i, j'));
  }

  /** A low-rank score is non-negative whenever its denominator ‖p(y)‖² is
      positive and there are at least as many samples as covariates. */
  lemma LowRankScoreNonNegative(e: Engine, y: Mat, projY: Mat, j: nat)
    requires Valid(e) && e.structure.LowRank?
    requires projY.rows == y.rows && projY.cols == y.cols
    requires y.rows == e.n && j < y.cols
    requires e.P() <= e.n
    requires ColumnNormSq(e.n, Residual(e, y, projY), j) > 0.0
    ensures ComputeScores(e, y, projY).value[j].Finite?
    ensures ComputeScores(e, y, projY).value[j].value >= 0.0
  {
  }

  /** A low-rank score is exactly 0 when p(y) is orthogonal to every column
      of Z and its denominator ‖p(y)‖² is non-zero. */
  lemma {:induction false} LowRankOrthogonalScoresZero(e: Engine, y: Mat, projY: Mat, j: nat)
    requires Valid(e) && e.structure.LowRank?
    requires projY.rows == y.rows && projY.cols == y.cols
    requires y.rows == e.n && j < y.cols
    requires ColumnNormSq(e.n, Residual(e, y, projY), j) != 0.0
    requires forall c :: 0 <= c < e.structure.z.cols ==> ColumnDot(e.n, e.structure.z, c, Residual(e, y, projY), j) == 0.0
    ensures ComputeScores(e, y, projY).value[j] == Finite(0.0)
  {
    var z, r := e.structure.z, Residual(e, y, projY);
    var f := (c: nat) => ColumnDot(e.n, z, c, r, j) * ColumnDot(e.n, z, c, r, j);
    SumOfZeros(z.cols, f);
  }

  /** Step of the Gram identity: (Z·Zᵀ·y)[i][j] = sum over c of Z[i][c] · (Zᵀ·y)[c][j]. */
  lemma GramProductRow(k: Mat, z: Mat, y: Mat, i: nat, j: nat)
    requires IsGram(k, z) && i < z.rows
    ensures Product(z.rows, k, i, y, j) == Sum(z.cols, (c: nat) => At(z, i, c) * ColumnDot(z.rows, z, c, y, j))
  {
    var n, m := z.rows, z.cols;
    var f := (l: nat, c: nat) => At(z, i, c) * At(z, l, c) * At(y, l, j);
    var rows := (l: nat) => At(k, i, l) * At(y, l, j);
    var cols := (c: nat) => At(z, i, c) * ColumnDot(n, z, c, y, j);
    forall l: nat | l < n ensures rows(l) == Sum(m, (c: nat) => f(l, c)) {
      var g := (c: nat) => At(z, i, c) * At(z, l, c);
      assert At(k, i, l) == Sum(m, g);
      SumScale(m, At(y, l, j), g, (c: nat) => f(l, c));
    }
    forall c: nat | c < m ensures cols(c) == Sum(n, (l: nat) => f(l, c)) {
      var g := (l: nat) => At(z, l, c) * At(y, l, j);
      assert ColumnDot(n, z, c, y, j) == Sum(n, g);
      SumScale(n, At(z, i, c), g, (l: nat) => f(l, c));
    }
    SumSwap(n, m, f, rows, cols);
  }

  /** One row of the Gram identity: (Z·Zᵀ·y)[i][j] · y[i][j] = sum over c of
      Z[i][c] · (Zᵀ·y)[c][j] · y[i][j]. */
  lemma GramQuadraticRow(k: Mat, z: Mat, y: Mat, i: nat, j: nat, g: nat -> real)
    requires IsGram(k, z) && i < z.rows
    requires forall c: nat :: g(c) == At(z, i, c) * ColumnDot(z.rows, z, c, y, j) * At(y, i, j)
    ensures Product(z.rows, k, i, y, j) * At(y, i, j) == Sum(z.cols, g)
  {
    var h := (c: nat) => At(z, i, c) * ColumnDot(z.rows, z, c, y, j);
    GramProductRow(k, z, y, i, j);
    forall c: nat | c < z.cols ensures g(c) == At(y, i, j) * h(c) {
      var a, b, d := At(z, i, c), ColumnDot(z.rows, z, c, y, j), At(y, i, j);
      assert a * b * d == d * (a * b);
    }
    SumScale(z.cols, At(y, i, j), h, g);
  }

  /** One column of the Gram identity: ((Zᵀ·y)[c][j])² = sum over i of
      Z[i][c] · (Zᵀ·y)[c][j] · y[i][j]. */
  lemma GramQuadraticColumn(z: Mat, y: Mat, c: nat, j: nat, g: nat -> real)
    requires forall i: nat :: g(i) == At(z, i, c) * ColumnDot(z.rows, z, c, y, j) * At(y, i, j)
    ensures ColumnDot(z.rows, z, c, y, j) * ColumnDot(z.rows, z, c, y, j) == Sum(z.rows, g)
  {
    var w := ColumnDot(z.rows, z, c, y, j);
    var h := (i: nat) => At(z, i, c) * At(y, i, j);
    assert w == Sum(z.rows, h);
    forall i: nat | i < z.rows ensures g(i) == w * h(i) {
      var a, d := At(z, i, c), At(y, i, j);
      assert a * w * d == w * (a * d);
    }
    SumScale(z.rows, w, h, g);
  }

  /** The Gram identity yᵀ·(Z·Zᵀ)·y = ‖Zᵀ·y‖², column by column. */
  lemma GramQuadraticForm(k: Mat, z: Mat, y: Mat, j: nat)
    requires IsGram(k, z)
    ensures FullKernelNumerator(k, z.rows, y, j) == LowRankNumerator(z, z.rows, y, j)
  {
    var n, m := z.rows, z.cols;
    var f := (i: nat, c: nat) => At(z, i, c) * ColumnDot(n, z, c, y, j) * At(y, i, j);
    var rows := (i: nat) => Product(n, k, i, y, j) * At(y, i, j);
    var cols := (c: nat) => ColumnDot(n, z, c, y, j) * ColumnDot(n, z, c, y, j);
    forall i: nat | i < n ensures rows(i) == Sum(m, (c: nat) => f(i, c)) {
      GramQuadraticRow(k, z, y, i, j, (c: nat) => f(i, c));
    }
    forall c: nat | c < m ensures cols(c) == Sum(n, (i: nat) => f(i, c)) {
      GramQuadraticColumn(z, y, c, j, (i: nat) => f(i, c));
    }
    SumSwap(n, m, f, rows, cols);
  }

  /** Cross-validation of the two parameterisations: without covariates, a
      full-kernel test on K = Z·Zᵀ and a low-rank test on Z give the same
      scores for every phenotype matrix. */
  lemma FullKernelMatchesLowRank(lowRank: Engine, fullKernel: Engine, y: Mat, projY: Mat)
    requires Valid(lowRank) && Valid(fullKernel)
    requires lowRank.design.NoCovariates? && fullKernel.design.NoCovariates?
    requires lowRank.structure.LowRank? && fullKernel.structure.FullKernel?
    requires fullKernel.structure.sks == fullKernel.structure.k
    requires IsGram(fullKernel.structure.k, lowRank.structure.z)
    requires projY.rows == y.rows && projY.cols == y.cols
    ensures ComputeScores(lowRank, y, projY) == ComputeScores(fullKernel, y, projY)
  {
    if y.rows == lowRank.n {
      var a, b := ComputeScores(lowRank, y, projY).value, ComputeScores(fullKernel, y, projY).value;
      forall j: nat | j < y.cols ensures a[j] == b[j] {
        GramQuadraticForm(fullKernel.structure.k, lowRank.structure.z, y, j);
      }
      assert a == b;
    }
  }

  /** The concrete case n = 4, Z the first two columns of the identity, no
      covariates, y = (0, 0, 1, 1): y is orthogonal to Z, so the score is 0. */
  lemma OrthogonalPhenotypeScoresZero(e: Engine)
    requires Valid(e) && e.design.NoCovariates?
    requires e.structure == LowRank(Matrix(4, 2, [[1.0, 0.0], [0.0, 1.0], [0.0, 0.0], [0.0, 0.0]]))
    ensures ComputeScores(e, Matrix(4, 1, [[0.0], [0.0], [1.0], [1.0]]), Matrix(4, 1, [[0.0], [0.0], [1.0], [1.0]])).value
         == [Finite(0.0)]
  {
    var y: Mat := Matrix(4, 1, [[0.0], [0.0], [1.0], [1.0]]);
    var z := e.structure.z;
    assert ColumnNormSq(4, y, 0) == 2.0;
    assert ColumnDot(4, z, 0, y, 0) == 0.0;
    assert ColumnDot(4, z, 1, y, 0) == 0.0;
    LowRankOrthogonalScoresZero(e, y, y, 0);
  }
}
