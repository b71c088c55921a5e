/** Double-precision values as numpy carries them through the k-support
    computations: a finite value (an exact real here), the two infinities
    and nan. Division by zero, which numpy turns into inf or nan with a
    warning, and comparisons, which are false whenever nan is involved, are
    stated on these values. */
module Floats {
  datatype Float = NegInf | Fin(x: real) | PosInf | NaN

  /** a / d for a divisor d >= 0, as numpy divides by +0.0: the quotient for
      a non-zero d, inf with the sign of a for a non-zero a, nan for 0 / 0. */
  function Divide(a: real, d: real): (r: Float)
    requires d >= 0.0
    ensures r.Fin? <==> d != 0.0
    ensures r.Fin? ==> r.x * d == a
    ensures r.PosInf? <==> d == 0.0 && a > 0.0
    ensures r.NegInf? <==> d == 0.0 && a < 0.0
  {
    if d != 0.0 then Fin(a / d)
    else if a > 0.0 then PosInf
    else if a < 0.0 then NegInf
    else NaN
  }

  /** inf with the given sign. */
  function SignedInf(positive: bool): (r: Float)
    ensures r.PosInf? <==> positive
    ensures r.PosInf? || r.NegInf?
  {
    if positive then PosInf else NegInf
  }

  /** The position of a value's kind in the order np.sort uses: -inf, the
      finite values, +inf, and nan last. */
  function Rank(a: Float): nat
  {
    match a
    case NegInf => 0
    case Fin(_) => 1
    case PosInf => 2
    case NaN => 3
  }

  /** a comes strictly before b in np.sort's order. */
  predicate Before(a: Float, b: Float)
  {
    Rank(a) < Rank(b) || (a.Fin? && b.Fin? && a.x < b.x)
  }

  /** Sorted in np.sort's order with no value twice. */
  predicate StrictlyIncreasingF(s: seq<Float>)
  {
    forall i, j :: 0 <= i < j < |s| ==> Before(s[i], s[j])
  }

  /** a < k, a <= k, a >= k and a > k for a finite k: numpy's comparisons,
      false whenever a is nan. */
  predicate Less(a: Float, k: real)
  {
    a.NegInf? || (a.Fin? && a.x < k)
  }

  predicate LessEq(a: Float, k: real)
  {
    a.NegInf? || (a.Fin? && a.x <= k)
  }

  predicate GreaterEq(a: Float, k: real)
  {
    a.PosInf? || (a.Fin? && a.x >= k)
  }

  predicate Greater(a: Float, k: real)
  {
    a.PosInf? || (a.Fin? && a.x > k)
  }

  /** A value that is not nan is on exactly one side of k for each pair of
      opposite comparisons; nan is on neither. */
  lemma Comparisons(a: Float, k: real)
    ensures a.NaN? <==> !Less(a, k) && !GreaterEq(a, k)
    ensures a.NaN? <==> !LessEq(a, k) && !Greater(a, k)
    ensures !a.NaN? ==> (Less(a, k) <==> !GreaterEq(a, k)) && (LessEq(a, k) <==> !Greater(a, k))
    ensures LessEq(a, k) && GreaterEq(a, k) <==> a == Fin(k)
  {
  }
}
