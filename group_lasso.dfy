/** GroupLasso: every column of the (channels x coefficients) data is one
    group. Its L2 norm n_j is computed over the channels (numpy's axis 0), and
    the whole column is multiplied by max(0, 1 - w * extra / max(n_j, eps32)).
    The norms are numpy's square roots, given as a parameter. */
module GroupLasso {
  import opened Numeric

  /** norms[j] is np.linalg.norm of column j. */
  predicate AreColumnNorms(data: seq<seq<real>>, cols: nat, norms: seq<real>)
  {
    && |norms| == cols
    && (forall i :: 0 <= i < |data| ==> |data[i]| == cols)
    && forall j :: 0 <= j < cols ==> IsSqrt(norms[j], SumSq(Column(data, j)))
  }

  /** The factor applied to a column of norm n with threshold t. */
  function ColumnFactor(t: real, n: real): real
  {
    ShrinkFactor(t, n, Eps32)
  }

  /** GroupLasso.op: the same shape as the input, every column scaled by its
      own factor. */
  function Op(data: seq<seq<real>>, cols: nat, weights: real, extraFactor: real, norms: seq<real>)
    : (r: seq<seq<real>>)
    requires AreColumnNorms(data, cols, norms)
    ensures IsMatrix(r, |data|, cols)
  {
    seq(|data|, i requires 0 <= i < |data| =>
      seq(cols, j requires 0 <= j < cols => data[i][j] * ColumnFactor(weights * extraFactor, norms[j])))
  }

  /** Column j of the output is column j of the input scaled by a factor in
      [0,1]; so its norm never grows. */
  lemma OpShrinksColumn(data: seq<seq<real>>, cols: nat, weights: real, extraFactor: real, norms: seq<real>, j: nat)
    requires AreColumnNorms(data, cols, norms)
    requires weights * extraFactor >= 0.0 && j < cols
    ensures var f := ColumnFactor(weights * extraFactor, norms[j]);
      && 0.0 <= f <= 1.0
      && Column(Op(data, cols, weights, extraFactor, norms), j) == ScaleVec(Column(data, j), f)
    ensures SumSq(Column(Op(data, cols, weights, extraFactor, norms), j)) <= SumSq(Column(data, j))
  {
    var f := ColumnFactor(weights * extraFactor, norms[j]);
    ShrinkFactorBounds(weights * extraFactor, norms[j], Eps32);
    var out := Column(Op(data, cols, weights, extraFactor, norms), j);
    var col := Column(data, j);
    forall i | 0 <= i < |data| ensures out[i] == ScaleVec(col, f)[i] {
      assert out[i] == Op(data, cols, weights, extraFactor, norms)[i][j];
    }
    assert out == ScaleVec(col, f);
    ScaledSumSqAtMost(col, f);
  }

  /** Column j of the output is entirely zero exactly when the input column
      is zero or the threshold reaches max(n_j, eps32); for a column whose
      norm is at least eps32 this is: exactly when n_j <= w * extra. */
  lemma OpZeroesColumn(data: seq<seq<real>>, cols: nat, weights: real, extraFactor: real, norms: seq<real>, j: nat)
    requires AreColumnNorms(data, cols, norms)
    requires weights * extraFactor >= 0.0 && j < cols
    ensures var out := Column(Op(data, cols, weights, extraFactor, norms), j);
      (forall i :: 0 <= i < |out| ==> out[i] == 0.0) <==>
        (norms[j] == 0.0 || weights * extraFactor >= Max(Eps32, norms[j]))
    ensures norms[j] >= Eps32 ==>
      var out := Column(Op(data, cols, weights, extraFactor, norms), j);
      (forall i :: 0 <= i < |out| ==> out[i] == 0.0) <==> norms[j] <= weights * extraFactor
  {
    var t := weights * extraFactor;
    var f := ColumnFactor(t, norms[j]);
    var col := Column(data, j);
    var out := Column(Op(data, cols, weights, extraFactor, norms), j);
    ShrinkFactorBounds(t, norms[j], Eps32);
    OpShrinksColumn(data, cols, weights, extraFactor, norms, j);
    assert out == ScaleVec(col, f);
    SumSqZero(col);
    MulZero(norms[j], norms[j]);
    forall i | 0 <= i < |out| ensures out[i] == 0.0 <==> col[i] == 0.0 || f == 0.0 {
      MulZero(col[i], f);
    }
    if f != 0.0 && norms[j] != 0.0 {
      var k :| 0 <= k < |col| && col[k] != 0.0;
      assert out[k] != 0.0;
    }
  }

  /** GroupLasso.get_cost: the sum of the column norms, never negative. */
  function GetCost(data: seq<seq<real>>, cols: nat, norms: seq<real>): (r: real)
    requires AreColumnNorms(data, cols, norms)
    ensures r >= 0.0
    ensures r == 0.0 <==> forall j :: 0 <= j < cols ==> norms[j] == 0.0
  {
    NormSumZero(norms);
    Sum(norms)
  }

  lemma {:induction false} NormSumZero(norms: seq<real>)
    requires forall j :: 0 <= j < |norms| ==> norms[j] >= 0.0
    ensures Sum(norms) >= 0.0
    ensures Sum(norms) == 0.0 <==> forall j :: 0 <= j < |norms| ==> norms[j] == 0.0
  {
    if norms != [] {
      NormSumZero(norms[1..]);
      assert forall j :: 1 <= j < |norms| ==> norms[j] == norms[1..][j - 1];
    }
  }
}

/** SparseGroupLasso: the group-lasso prox applied to the output of the
    lasso prox, both at the same extra factor (a two-step composition, not
    the joint proximal operator). */
module SparseGroupLasso {
  import opened Wrappers
  import opened Numeric
  import Lasso
  import GroupLasso

  /** The lasso prox applied to every entry of the matrix. */
  function LassoStep(data: seq<seq<real>>, weightsL1: real, extraFactor: real): (r: seq<seq<real>>)
    ensures |r| == |data| && forall i :: 0 <= i < |data| ==> r[i] == Lasso.Threshold(data[i], weightsL1 * extraFactor)
  {
    seq(|data|, i requires 0 <= i < |data| => Lasso.Threshold(data[i], weightsL1 * extraFactor))
  }

  /** SparseGroupLasso.op; the norms are those of the lasso output's columns. */
  function Op(data: seq<seq<real>>, cols: nat, weightsL1: real, weightsL2: real, extraFactor: real, norms: seq<real>)
    : (r: seq<seq<real>>)
    requires GroupLasso.AreColumnNorms(LassoStep(data, weightsL1, extraFactor), cols, norms)
    ensures IsMatrix(r, |data|, cols)
  {
    GroupLasso.Op(LassoStep(data, weightsL1, extraFactor), cols, weightsL2, extraFactor, norms)
  }

  /** Every output entry keeps the sign of its input and is no larger in
      magnitude; an entry the lasso step zeroes stays zero. */
  lemma OpShrinksEntries(data: seq<seq<real>>, cols: nat, weightsL1: real, weightsL2: real, extraFactor: real,
                         norms: seq<real>, i: nat, j: nat)
    requires GroupLasso.AreColumnNorms(LassoStep(data, weightsL1, extraFactor), cols, norms)
    requires weightsL1 >= 0.0 && weightsL2 >= 0.0 && extraFactor >= 0.0
    requires i < |data| && j < cols
    ensures var r := Op(data, cols, weightsL1, weightsL2, extraFactor, norms);
      && Abs(r[i][j]) <= Abs(data[i][j])
      && r[i][j] * data[i][j] >= 0.0
      && (weightsL1 * extraFactor >= Max(Eps64, Abs(data[i][j])) ==> r[i][j] == 0.0)
  {
    var t1 := weightsL1 * extraFactor;
    var t2 := weightsL2 * extraFactor;
    MulNonNeg(weightsL1, extraFactor);
    MulNonNeg(weightsL2, extraFactor);
    var x, n := data[i][j], norms[j];
    var lasso := LassoStep(data, weightsL1, extraFactor);
    var r := Op(data, cols, weightsL1, weightsL2, extraFactor, norms);
    assert lasso[i][j] == Lasso.Soft(x, t1);
    assert r[i][j] == lasso[i][j] * GroupLasso.ColumnFactor(t2, n);
    EntryShrinks(x, t1, t2, n, r[i][j]);
  }

  /** One entry: the lasso step followed by a column factor. */
  lemma EntryShrinks(x: real, t1: real, t2: real, n: real, r: real)
    requires t1 >= 0.0 && t2 >= 0.0
    requires r == Lasso.Soft(x, t1) * GroupLasso.ColumnFactor(t2, n)
    ensures Abs(r) <= Abs(x) && r * x >= 0.0
    ensures t1 >= Max(Eps64, Abs(x)) ==> r == 0.0
  {
    var s := Lasso.Soft(x, t1);
    var f := GroupLasso.ColumnFactor(t2, n);
    Lasso.SoftProperties(x, t1);
    ShrinkFactorBounds(t2, n, Eps32);
    FractionAfterShrink(x, s, f);
    if t1 >= Max(Eps64, Abs(x)) {
      MulZero(s, f);
    }
  }

  /** A value s no larger than x with the sign of x, scaled by a fraction,
      is still no larger than x and still has its sign. */
  lemma FractionAfterShrink(x: real, s: real, f: real)
    requires Abs(s) <= Abs(x) && s * x >= 0.0
    requires 0.0 <= f <= 1.0
    ensures Abs(s * f) <= Abs(x) && (s * f) * x >= 0.0
  {
    ScaleByFraction(s, f);
    ChainedSign(x, s, s * f);
  }

  lemma ChainedSign(x: real, s: real, r: real)
    requires Abs(r) <= Abs(s) && Abs(s) <= Abs(x)
    requires s * x >= 0.0 && r * s >= 0.0
    ensures Abs(r) <= Abs(x) && r * x >= 0.0
  {
    if s == 0.0 {
      assert r == 0.0;
      MulZero(r, x);
    } else {
      MulNonNeg(r * s, s * x);
      assert (r * s) * (s * x) == (r * x) * (s * s);
      SquareNonNeg(s);
      MulZero(s, s);
      NonNegFactor(r * x, s * s);
    }
  }

  lemma NonNegFactor(a: real, b: real)
    requires b > 0.0 && a * b >= 0.0
    ensures a >= 0.0
  {
    if a < 0.0 { MulPos(-a, b); }
  }

  /** The two costs the source adds up: the weighted L1 cost of the lasso
      part and the group cost. */
  datatype Error = MissingCostMethod

  /** SparseGroupLasso.get_cost as written: it calls `cost` on the
      GroupLasso part, which only defines `get_cost`, so every call fails
      with an AttributeError. */
  function GetCostAsWritten(data: seq<seq<real>>): (r: Result<real, Error>)
    ensures r.Err?
  {
    Err(MissingCostMethod)
  }

  /** SparseGroupLasso.get_cost as intended: the L1 cost of all entries plus
      the sum of the column norms; never negative. */
  function GetCost(data: seq<seq<real>>, cols: nat, weightsL1: real, norms: seq<real>): (r: real)
    requires GroupLasso.AreColumnNorms(data, cols, norms)
    ensures r >= 0.0
  {
    L1CostNonNegative(data, weightsL1);
    L1Cost(data, weightsL1) + GroupLasso.GetCost(data, cols, norms)
  }

  function L1Cost(data: seq<seq<real>>, w: real): real
  {
    if data == [] then 0.0 else Lasso.Cost(data[0], w) + L1Cost(data[1..], w)
  }

  lemma {:induction false} L1CostNonNegative(data: seq<seq<real>>, w: real)
    ensures L1Cost(data, w) >= 0.0
  {
    if data != [] {
      Lasso.CostNonNegative(data[0], w);
      L1CostNonNegative(data[1..], w);
    }
  }

  /** The cost as written fails on every input, here on the empty matrix,
      where the intended cost is 0. */
  lemma GetCostAsWrittenFails()
    ensures GetCostAsWritten([]).Err? && GetCost([], 0, 1.0, []) == 0.0
  {
    assert L1Cost([], 1.0) == 0.0;
    assert GroupLasso.GetCost([], 0, []) == 0.0 by { assert Sum([]) == 0.0; }
  }
}
