/** Real matrices with an explicit shape, standing in for two-dimensional
    numpy arrays. */
module Matrices {
  import opened Sums

  datatype Matrix = Matrix(rows: nat, cols: nat, entries: seq<seq<real>>)

  /** A rectangular array: `rows` rows of `cols` entries each. */
  predicate Rectangular(m: Matrix)
  {
    |m.entries| == m.rows && forall i :: 0 <= i < |m.entries| ==> |m.entries[i]| == m.cols
  }

  type Mat = m: Matrix | Rectangular(m) witness Matrix(0, 0, [])

  /** Entry (i, j), read as 0 outside the shape so that sums can range over
      total index functions. */
  function At(m: Mat, i: nat, j: nat): real
  {
    if i < m.rows && j < m.cols then m.entries[i][j] else 0.0
  }

  /** numpy.ones((rows, cols)). */
  function Ones(rows: nat, cols: nat): (m: Mat)
    ensures m.rows == rows && m.cols == cols
    ensures forall i, j :: 0 <= i < rows && 0 <= j < cols ==> m.entries[i][j] == 1.0
  {
    Matrix(rows, cols, seq(rows, _ => seq(cols, _ => 1.0)))
  }

  /** numpy.hstack([a, b]) for two arrays with the same number of rows:
      the columns of `a` followed by the columns of `b`. */
  function HStack(a: Mat, b: Mat): (m: Mat)
    requires a.rows == b.rows
    ensures m.rows == a.rows && m.cols == a.cols + b.cols
    ensures forall i, j :: 0 <= i < a.rows && 0 <= j < a.cols ==> m.entries[i][j] == a.entries[i][j]
    ensures forall i, j :: 0 <= i < b.rows && 0 <= j < b.cols ==> m.entries[i][a.cols + j] == b.entries[i][j]
  {
    Matrix(a.rows, a.cols + b.cols, seq(a.rows, i requires 0 <= i < a.rows => a.entries[i] + b.entries[i]))
  }

  /** (Aᵀ·B)[c][j]: the dot product of column c of `a` with column j of `b`
      over the first n rows. */
  function ColumnDot(n: nat, a: Mat, c: nat, b: Mat, j: nat): real
  {
    Sum(n, (i: nat) => At(a, i, c) * At(b, i, j))
  }

  /** (A·B)[i][j] over an inner dimension of n. */
  function Product(n: nat, a: Mat, i: nat, b: Mat, j: nat): real
  {
    Sum(n, (l: nat) => At(a, i, l) * At(b, l, j))
  }

  /** The squared Euclidean norm of column j of `m` over its first n rows. */
  function ColumnNormSq(n: nat, m: Mat, j: nat): real
  {
    Sum(n, (i: nat) => At(m, i, j) * At(m, i, j))
  }

  /** `k` is the Gram matrix Z·Zᵀ of the factor `z`. */
  predicate IsGram(k: Mat, z: Mat)
  {
    k.rows == z.rows && k.cols == z.rows &&
    forall i, l :: 0 <= i < z.rows && 0 <= l < z.rows ==>
      k.entries[i][l] == Sum(z.cols, (c: nat) => At(z, i, c) * At(z, l, c))
  }
}
