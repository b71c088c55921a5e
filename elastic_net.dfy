/** The soft threshold of modopt's SparseThreshold (thresh_type 'soft', the
    identity linear operator), which ElasticNet and SparseGroupLasso build on.
    Each entry x becomes x * max(1 - t / max(eps64, |x|), 0). */
module Lasso {
  import opened Numeric

  function Soft(x: real, t: real): real
  {
    x * ShrinkFactor(t, Abs(x), Eps64)
  }

  /** The soft threshold keeps the sign, never grows the magnitude, zeroes x
      exactly when x is 0 or the threshold reaches max(eps64, |x|), and above
      the epsilon floor moves x towards 0 by t. */
  lemma SoftProperties(x: real, t: real)
    requires t >= 0.0
    ensures Abs(Soft(x, t)) <= Abs(x)
    ensures Soft(x, t) * x >= 0.0
    ensures Soft(x, t) == 0.0 <==> x == 0.0 || t >= Max(Eps64, Abs(x))
    ensures Abs(x) >= Eps64 ==> Abs(Soft(x, t)) == Max(Abs(x) - t, 0.0)
    ensures t == 0.0 ==> Soft(x, t) == x
  {
    var f := ShrinkFactor(t, Abs(x), Eps64);
    ShrinkFactorBounds(t, Abs(x), Eps64);
    ScaleByFraction(x, f);
    if Abs(x) >= Eps64 {
      ShrinkFactorTimesMagnitude(t, Abs(x), Eps64);
    }
  }

  /** The thresholded vector (SparseThreshold._op_method with threshold
      weights * extra_factor). */
  function Threshold(data: seq<real>, t: real): (r: seq<real>)
    ensures |r| == |data|
  {
    seq(|data|, i requires 0 <= i < |data| => Soft(data[i], t))
  }

  /** The weighted L1 cost of SparseThreshold: sum |w * x_i|. */
  function Cost(data: seq<real>, w: real): real
  {
    if data == [] then 0.0 else Abs(w * data[0]) + Cost(data[1..], w)
  }

  /** The weighted L1 cost is never negative. */
  lemma CostNonNegative(data: seq<real>, w: real)
    ensures Cost(data, w) >= 0.0
  {
    CostEquation(data, w);
    SumAbsNonNegative(data);
    MulNonNeg(Abs(w), SumAbs(data));
  }

  /** sum |w * x_i| is |w| times the L1 norm of x. */
  lemma {:induction false} CostEquation(data: seq<real>, w: real)
    ensures Cost(data, w) == Abs(w) * SumAbs(data)
  {
    if data != [] {
      var head, rest := data[0], data[1..];
      var a, h, t := Abs(w), Abs(head), SumAbs(rest);
      assert Cost(data, w) == Abs(w * head) + Cost(rest, w);
      assert SumAbs(data) == h + t;
      CostEquation(rest, w);
      AbsMul(w, head);
      Distrib(a, h, t);
    }
  }
}

/** ElasticNet: the soft threshold by weights_lasso * extra_factor followed by
    the uniform rescale 1 / (1 + 2 * weights_lasso * weights_ridge). The data
    is the flattened array; the reshape back to the input shape keeps every
    entry where it was. */
module ElasticNet {
  import opened Wrappers
  import opened Numeric
  import Lasso

  datatype Error = ZeroDivision

  /** The rescale factor, or ZeroDivision when 1 + 2 * wl * wr is 0. */
  function Scale(weightsLasso: real, weightsRidge: real): (r: Result<real, Error>)
    ensures r.Ok? <==> 1.0 + weightsLasso * 2.0 * weightsRidge != 0.0
    ensures weightsLasso >= 0.0 && weightsRidge >= 0.0 ==> r.Ok? && 0.0 < r.value <= 1.0
  {
    var d := 1.0 + weightsLasso * 2.0 * weightsRidge;
    if d == 0.0 then Err(ZeroDivision)
    else
      assert d >= 1.0 ==> 1.0 / d <= 1.0 by { if d >= 1.0 { DivAtMostOne(1.0, d); } }
      Ok(1.0 / d)
  }

  /** ElasticNet.op on the flattened data: fails exactly when the rescale
      divides by zero, and otherwise keeps the length. OpShrinks and
      OpClosedForm state what each entry is. */
  function Op(data: seq<real>, weightsLasso: real, weightsRidge: real, extraFactor: real)
    : (r: Result<seq<real>, Error>)
    ensures r.Ok? <==> 1.0 + weightsLasso * 2.0 * weightsRidge != 0.0
    ensures r.Ok? ==> |r.value| == |data|
  {
    match Scale(weightsLasso, weightsRidge)
    case Err(e) => Err(e)
    case Ok(c) =>
      Ok(seq(|data|, i requires 0 <= i < |data| => c * Lasso.Soft(data[i], weightsLasso * extraFactor)))
  }

  /** For non-negative weights and factor every output entry keeps the sign
      of its input, is no larger in magnitude, and is 0 exactly when the
      input is 0 or the threshold reaches max(eps64, |x|). */
  lemma OpShrinks(data: seq<real>, weightsLasso: real, weightsRidge: real, extraFactor: real, i: nat)
    requires weightsLasso >= 0.0 && weightsRidge >= 0.0 && extraFactor >= 0.0
    requires i < |data|
    ensures Op(data, weightsLasso, weightsRidge, extraFactor).Ok?
    ensures var r := Op(data, weightsLasso, weightsRidge, extraFactor).value;
      && Abs(r[i]) <= Abs(data[i])
      && r[i] * data[i] >= 0.0
      && (r[i] == 0.0 <==> data[i] == 0.0 || weightsLasso * extraFactor >= Max(Eps64, Abs(data[i])))
  {
    MulNonNeg(weightsLasso, weightsRidge);
    MulNonNeg(weightsLasso, extraFactor);
    var c := Scale(weightsLasso, weightsRidge).value;
    var t := weightsLasso * extraFactor;
    var r := Op(data, weightsLasso, weightsRidge, extraFactor).value;
    assert r[i] == c * Lasso.Soft(data[i], t);
    ScaledSoft(data[i], t, c, r[i]);
  }

  lemma ScaledSoft(x: real, t: real, c: real, y: real)
    requires t >= 0.0 && 0.0 < c <= 1.0
    requires y == c * Lasso.Soft(x, t)
    ensures Abs(y) <= Abs(x) && y * x >= 0.0
    ensures y == 0.0 <==> x == 0.0 || t >= Max(Eps64, Abs(x))
  {
    Lasso.SoftProperties(x, t);
    ScalePreserves(Lasso.Soft(x, t), x, c, y);
  }

  /** With a zero lasso weight and a zero ridge weight the operator is the
      identity (no shrinkage and no rescale). */
  lemma {:induction false} OpZeroWeightsIsIdentity(data: seq<real>, extraFactor: real)
    ensures Op(data, 0.0, 0.0, extraFactor) == Ok(data)
  {
    assert Scale(0.0, 0.0) == Ok(1.0);
    assert 0.0 * extraFactor == 0.0;
    var r := Op(data, 0.0, 0.0, extraFactor).value;
    forall i | 0 <= i < |data| ensures r[i] == data[i] {
      Lasso.SoftProperties(data[i], 0.0);
    }
    assert r == data;
  }

  /** Above the epsilon floor the output is the classical elastic-net
      solution: the magnitude reduced by the threshold, floored at 0, divided
      by 1 + 2 * wl * wr. */
  lemma OpClosedForm(data: seq<real>, weightsLasso: real, weightsRidge: real, extraFactor: real, i: nat)
    requires weightsLasso >= 0.0 && weightsRidge >= 0.0 && extraFactor >= 0.0
    requires i < |data| && Abs(data[i]) >= Eps64
    ensures Op(data, weightsLasso, weightsRidge, extraFactor).Ok?
    ensures Abs(Op(data, weightsLasso, weightsRidge, extraFactor).value[i])
         == Max(Abs(data[i]) - weightsLasso * extraFactor, 0.0) / (1.0 + 2.0 * weightsLasso * weightsRidge)
  {
    var t := weightsLasso * extraFactor;
    var d := 1.0 + weightsLasso * 2.0 * weightsRidge;
    var s := Lasso.Soft(data[i], t);
    Lasso.SoftProperties(data[i], t);
    MulNonNeg(weightsLasso, weightsRidge);
    assert Op(data, weightsLasso, weightsRidge, extraFactor).value[i] == 1.0 / d * s;
    AbsOverPositive(s, d);
  }

  lemma AbsOverPositive(s: real, d: real)
    requires d > 0.0
    ensures Abs(1.0 / d * s) == Abs(s) / d
  {
  }

  /** ElasticNet.get_cost: weights_lasso * sum |x_i| + weights_ridge * l2,
      where l2 is sqrt(sum |x_i|^2) as numpy computes it. Non-negative for
      non-negative weights. */
  function GetCost(data: seq<real>, weightsLasso: real, weightsRidge: real, l2: real): (r: real)
    requires IsSqrt(l2, SumSq(data))
    ensures weightsLasso >= 0.0 && weightsRidge >= 0.0 ==> r >= 0.0
  {
    SumAbsNonNegative(data);
    weightsLasso * SumAbs(data) + weightsRidge * l2
  }

  /** The cost of the zero vector is 0, and the cost vanishes only there when
      the lasso weight is positive. */
  lemma {:induction false} GetCostZeroExactlyAtZero(data: seq<real>, weightsLasso: real, weightsRidge: real, l2: real)
    requires IsSqrt(l2, SumSq(data))
    requires weightsLasso > 0.0 && weightsRidge >= 0.0
    ensures GetCost(data, weightsLasso, weightsRidge, l2) == 0.0 <==> forall i :: 0 <= i < |data| ==> data[i] == 0.0
  {
    SumAbsZero(data);
    SumAbsNonNegative(data);
    MulNonNeg(weightsRidge, l2);
    if SumAbs(data) != 0.0 {
      MulPos(weightsLasso, SumAbs(data));
    } else {
      SumSqOfZeros(data);
      MulZero(l2, l2);
    }
  }

  lemma {:induction false} SumAbsZero(data: seq<real>)
    ensures SumAbs(data) == 0.0 <==> forall i :: 0 <= i < |data| ==> data[i] == 0.0
  {
    if data != [] {
      SumAbsZero(data[1..]);
      SumAbsNonNegative(data[1..]);
      assert forall i :: 1 <= i < |data| ==> data[i] == data[1..][i - 1];
    }
  }

  lemma {:induction false} SumSqOfZeros(data: seq<real>)
    requires forall i :: 0 <= i < |data| ==> data[i] == 0.0
    ensures SumSq(data) == 0.0
  {
    if data != [] { SumSqOfZeros(data[1..]); }
  }
}
