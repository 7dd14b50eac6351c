/**
 * The random-matrix sampler sims_matrix. The standard-normal draws that
 * np.random.randn would produce are an input, so sampling is a pure function.
 */
module Sampler {

  /** The mean and standard deviation a sample is drawn with. */
  datatype Moments = Moments(mean: real, stdev: real)

  /** m has exactly `rows` rows of `cols` entries each. */
  predicate IsMatrix(m: seq<seq<real>>, rows: nat, cols: nat) {
    |m| == rows && forall i | 0 <= i < rows :: |m[i]| == cols
  }

  /** Every row of m has an entry in column c. */
  predicate HasColumn(m: seq<seq<real>>, c: nat) {
    forall i | 0 <= i < |m| :: c < |m[i]|
  }

  /** Columns c and d of m hold the same values, row by row. */
  predicate SameColumn(m: seq<seq<real>>, c: nat, d: nat)
    requires HasColumn(m, c) && HasColumn(m, d)
  {
    forall i | 0 <= i < |m| :: m[i][c] == m[i][d]
  }

  /** m1 and m2 have the same number of rows and hold the same values in column c. */
  predicate AgreeOn(m1: seq<seq<real>>, m2: seq<seq<real>>, c: nat)
    requires HasColumn(m1, c) && HasColumn(m2, c)
  {
    |m1| == |m2| && forall i | 0 <= i < |m1| :: m1[i][c] == m2[i][c]
  }

  /** Every entry of m equals v. */
  predicate AllEqual(m: seq<seq<real>>, v: real) {
    forall i, j | 0 <= i < |m| && 0 <= j < |m[i]| :: m[i][j] == v
  }

  /** A rows x cols matrix of noise about `mean`: each draw scaled by `stdev`. */
  function SimsMatrix(rows: nat, cols: nat, mean: real, stdev: real, draws: seq<seq<real>>): (x: seq<seq<real>>)
    requires IsMatrix(draws, rows, cols)
    ensures IsMatrix(x, rows, cols)
    ensures forall i, j | 0 <= i < rows && 0 <= j < cols :: x[i][j] == mean + draws[i][j] * stdev
  {
    seq(rows, i requires 0 <= i < rows => seq(cols, j requires 0 <= j < cols => mean + draws[i][j] * stdev))
  }

  /** With a zero standard deviation the draws do not matter: every entry is the mean. */
  lemma SimsMatrixDegenerate(rows: nat, cols: nat, mean: real, draws: seq<seq<real>>)
    requires IsMatrix(draws, rows, cols)
    ensures AllEqual(SimsMatrix(rows, cols, mean, 0.0, draws), mean)
  {
  }

  /** A column of the sample depends only on the same column of the draws. */
  lemma SimsMatrixColumns(rows: nat, cols: nat, mean: real, stdev: real, draws: seq<seq<real>>, c: nat, d: nat)
    requires IsMatrix(draws, rows, cols) && c < cols && d < cols
    requires SameColumn(draws, c, d)
    ensures SameColumn(SimsMatrix(rows, cols, mean, stdev, draws), c, d)
  {
  }

  /** Column c of the sample depends only on column c of the draws, whatever
      the other columns hold. */
  lemma SimsMatrixOwnColumn(rows: nat, cols: nat, mean: real, stdev: real, draws1: seq<seq<real>>,
                            draws2: seq<seq<real>>, c: nat)
    requires IsMatrix(draws1, rows, cols) && IsMatrix(draws2, rows, cols) && c < cols
    requires AgreeOn(draws1, draws2, c)
    ensures AgreeOn(SimsMatrix(rows, cols, mean, stdev, draws1), SimsMatrix(rows, cols, mean, stdev, draws2), c)
  {
  }

  /** A matrix whose entries are all equal has any two of its columns equal. */
  lemma AllEqualSameColumn(m: seq<seq<real>>, v: real, c: nat, d: nat)
    requires AllEqual(m, v) && HasColumn(m, c) && HasColumn(m, d)
    ensures SameColumn(m, c, d)
  {
  }
}
