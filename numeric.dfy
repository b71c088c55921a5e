/** Element-wise real arithmetic shared by the proximity operators: absolute
    value, sums over vectors and matrices, and the float32 machine epsilon
    that several operators use as a lower bound in a denominator. */
module Numeric {
  import opened Wrappers

  /** np.finfo(np.float32).eps, which is 2^-23. */
  const Eps32: real := 1.0 / 8388608.0

  /** np.finfo(np.float64).eps, which is 2^-52. */
  const Eps64: real := 1.0 / 4503599627370496.0

  /** The shrinkage factor max(1 - t / max(eps, n), 0) that the soft
      threshold, the group lasso and the singular-value threshold apply to a
      value of magnitude n (an absolute value or an L2 norm). */
  function ShrinkFactor(t: real, n: real, eps: real): real
    requires eps > 0.0
  {
    Max(1.0 - t / Max(eps, n), 0.0)
  }

  /** The factor lies in [0,1] for a non-negative threshold; it is 0 exactly
      when the threshold reaches max(eps, n) and 1 exactly when the threshold
      is 0. */
  lemma ShrinkFactorBounds(t: real, n: real, eps: real)
    requires eps > 0.0 && t >= 0.0
    ensures 0.0 <= ShrinkFactor(t, n, eps) <= 1.0
    ensures ShrinkFactor(t, n, eps) == 0.0 <==> t >= Max(eps, n)
    ensures ShrinkFactor(t, n, eps) == 1.0 <==> t == 0.0
  {
    var d := Max(eps, n);
    var q := t / d;
    DivCancel(t, d);
    if q < 0.0 { MulLt(q, 0.0, d); }
    DivAtMostOne(t, d);
    if t == d && q < 1.0 { MulLt(q, 1.0, d); }
    assert 0.0 <= q;
    assert q >= 1.0 <==> t >= d;
    assert q == 0.0 <==> t == 0.0;
  }

  lemma DivCancel(a: real, b: real)
    requires b != 0.0
    ensures (a / b) * b == a
  {
  }

  /** Above the epsilon floor the factor times the magnitude is the magnitude
      reduced by the threshold, floored at zero. */
  lemma ShrinkFactorTimesMagnitude(t: real, n: real, eps: real)
    requires eps > 0.0 && t >= 0.0 && n >= eps
    ensures ShrinkFactor(t, n, eps) * n == Max(n - t, 0.0)
  {
    assert Max(eps, n) == n;
    var q := t / n;
    assert q * n == t;
    DivAtMostOne(t, n);
    if t <= n {
      assert ShrinkFactor(t, n, eps) == 1.0 - q;
      calc {
        (1.0 - q) * n;
        n - q * n;
        n - t;
      }
    } else {
      assert 1.0 - t / Max(eps, n) < 0.0;
    }
  }

  lemma MulLeq(a: real, b: real, c: real)
    requires a <= b && c >= 0.0
    ensures a * c <= b * c
  {
  }

  lemma MulMonotone(a: real, b: real, c: real, d: real)
    requires 0.0 <= a <= b && 0.0 <= c <= d
    ensures a * c <= b * d
  {
    MulLeq(a, b, c);
    MulLeq(c, d, b);
  }

  lemma MulLt(a: real, b: real, c: real)
    requires a < b && c > 0.0
    ensures a * c < b * c
  {
  }

  lemma MulNonNeg(a: real, b: real)
    requires a >= 0.0 && b >= 0.0
    ensures a * b >= 0.0
  {
  }

  lemma MulPos(a: real, b: real)
    requires a > 0.0 && b > 0.0
    ensures a * b > 0.0
  {
  }

  lemma MulZero(a: real, b: real)
    ensures a * b == 0.0 <==> a == 0.0 || b == 0.0
  {
    if a != 0.0 && b != 0.0 {
      if a > 0.0 && b > 0.0 { MulPos(a, b); }
      else if a > 0.0 { MulPos(a, -b); }
      else if b > 0.0 { MulPos(-a, b); }
      else { MulPos(-a, -b); }
    }
  }

  lemma SquareNonNeg(a: real)
    ensures a * a >= 0.0
  {
    if a < 0.0 { MulNonNeg(-a, -a); } else { MulNonNeg(a, a); }
  }

  lemma AbsMul(a: real, b: real)
    ensures Abs(a * b) == Abs(a) * Abs(b)
  {
    if a < 0.0 && b < 0.0 { assert a * b == (-a) * (-b); MulNonNeg(-a, -b); }
    else if a < 0.0 { MulNonNeg(-a, b); assert a * b == -((-a) * b); }
    else if b < 0.0 { MulNonNeg(a, -b); assert a * b == -(a * (-b)); }
    else { MulNonNeg(a, b); }
  }

  lemma Distrib(a: real, b: real, c: real)
    ensures a * b + a * c == a * (b + c)
  {
  }

  /** Multiplying by a fraction in [0,1] keeps the sign, never grows the
      magnitude, and gives 0 exactly when either factor is 0. */
  lemma ScaleByFraction(x: real, f: real)
    requires 0.0 <= f <= 1.0
    ensures Abs(x * f) == Abs(x) * f
    ensures Abs(x * f) <= Abs(x)
    ensures (x * f) * x >= 0.0
    ensures x * f == 0.0 <==> x == 0.0 || f == 0.0
  {
    var p := x * f;
    ScaledAbs(x, f, p);
    ScaledSign(x, f, p);
    MulZero(x, f);
  }

  lemma ScaledAbs(x: real, f: real, p: real)
    requires 0.0 <= f <= 1.0 && p == x * f
    ensures Abs(p) == Abs(x) * f && Abs(p) <= Abs(x)
  {
    if x < 0.0 {
      assert p == -((-x) * f);
      MulNonNeg(-x, f);
      FractionOfNonNeg(-x, f);
    } else {
      MulNonNeg(x, f);
      FractionOfNonNeg(x, f);
    }
  }

  lemma ScaledSign(x: real, f: real, p: real)
    requires 0.0 <= f && p == x * f
    ensures p * x >= 0.0
  {
    SquareNonNeg(x);
    assert p * x == f * (x * x);
    MulNonNeg(f, x * x);
  }

  lemma FractionOfNonNeg(a: real, f: real)
    requires a >= 0.0 && 0.0 <= f <= 1.0
    ensures a * f <= a && f * a <= a
  {
    MulLeq(f, 1.0, a);
  }

  /** Scaling a value s by c in (0,1] keeps the facts that s is no larger
      than x in magnitude and has the sign of x, and keeps s zero exactly
      when it was. */
  lemma ScalePreserves(s: real, x: real, c: real, y: real)
    requires 0.0 < c <= 1.0 && y == c * s
    requires Abs(s) <= Abs(x) && s * x >= 0.0
    ensures Abs(y) <= Abs(x)
    ensures y * x >= 0.0
    ensures y == 0.0 <==> s == 0.0
  {
    ScaledAbs(s, c, y);
    var sx := s * x;
    assert y * x == c * sx;
    MulNonNeg(c, sx);
    MulZero(c, s);
  }

  /** Every entry of v multiplied by f. */
  function ScaleVec(v: seq<real>, f: real): (r: seq<real>)
    ensures |r| == |v| && forall i :: 0 <= i < |v| ==> r[i] == v[i] * f
  {
    seq(|v|, i requires 0 <= i < |v| => v[i] * f)
  }

  lemma {:induction false} SumSqScaled(v: seq<real>, f: real)
    ensures SumSq(ScaleVec(v, f)) == f * f * SumSq(v)
  {
    if v != [] {
      var w := ScaleVec(v, f);
      var head, tail := v[0], SumSq(v[1..]);
      SumSqScaled(v[1..], f);
      ScaleVecTail(v, f);
      assert SumSq(w) == w[0] * w[0] + SumSq(ScaleVec(v[1..], f));
      SquareScaled(head, f);
      Distrib(f * f, head * head, tail);
    }
  }

  lemma ScaleVecTail(v: seq<real>, f: real)
    requires v != []
    ensures ScaleVec(v, f)[1..] == ScaleVec(v[1..], f)
  {
    var a, b := ScaleVec(v, f)[1..], ScaleVec(v[1..], f);
    forall i | 0 <= i < |a| ensures a[i] == b[i] {
      assert a[i] == v[i + 1] * f;
    }
  }

  lemma SquareScaled(x: real, f: real)
    ensures (x * f) * (x * f) == f * f * (x * x)
  {
  }

  /** Scaling a vector by a fraction in [0,1] never grows its squared norm. */
  lemma ScaledSumSqAtMost(v: seq<real>, f: real)
    requires 0.0 <= f <= 1.0
    ensures SumSq(ScaleVec(v, f)) <= SumSq(v)
  {
    var scaled, plain := SumSq(ScaleVec(v, f)), SumSq(v);
    SumSqScaled(v, f);
    SumSqNonNegative(v);
    SquareFractionAtMost(f, plain);
    assert scaled == f * f * plain;
  }

  lemma SquareFractionAtMost(f: real, a: real)
    requires 0.0 <= f <= 1.0 && a >= 0.0
    ensures f * f * a <= a
  {
    FractionOfNonNeg(a, f);
    MulNonNeg(f, a);
    FractionOfNonNeg(f * a, f);
    assert f * f * a == f * (f * a);
  }

  /** The squared norm is 0 exactly when every entry is 0. */
  lemma {:induction false} SumSqZero(v: seq<real>)
    ensures SumSq(v) == 0.0 <==> forall i :: 0 <= i < |v| ==> v[i] == 0.0
  {
    if v != [] {
      SumSqZero(v[1..]);
      SumSqNonNegative(v[1..]);
      SquareNonNeg(v[0]);
      MulZero(v[0], v[0]);
      assert forall i :: 1 <= i < |v| ==> v[i] == v[1..][i - 1];
    }
  }

  /** t / n is at most 1 exactly when t is at most n. */
  lemma DivAtMostOne(t: real, n: real)
    requires n > 0.0
    ensures t / n <= 1.0 <==> t <= n
  {
    var q := t / n;
    DivCancel(t, n);
    if q <= 1.0 {
      MulLeq(q, 1.0, n);
    } else {
      AboveOne(q, n);
    }
  }

  lemma AboveOne(q: real, n: real)
    requires q > 1.0 && n > 0.0
    ensures q * n > n
  {
    MulLt(1.0, q, n);
  }

  function Abs(x: real): (r: real)
    ensures r >= 0.0 && (r == x || r == -x)
  {
    if x < 0.0 then -x else x
  }

  function Max(a: real, b: real): (r: real)
    ensures r >= a && r >= b && (r == a || r == b)
  {
    if a < b then b else a
  }

  function Sum(s: seq<real>): real
  {
    if s == [] then 0.0 else s[0] + Sum(s[1..])
  }

  function SumAbs(s: seq<real>): real
  {
    if s == [] then 0.0 else Abs(s[0]) + SumAbs(s[1..])
  }

  function SumSq(s: seq<real>): real
  {
    if s == [] then 0.0 else s[0] * s[0] + SumSq(s[1..])
  }

  lemma {:induction false} SumAbsNonNegative(s: seq<real>)
    ensures SumAbs(s) >= 0.0
  {
    if s != [] { SumAbsNonNegative(s[1..]); }
  }

  lemma {:induction false} SumSqNonNegative(s: seq<real>)
    ensures SumSq(s) >= 0.0
  {
    if s != [] { SumSqNonNegative(s[1..]); }
  }

  /** Sum of a vector whose entries are all non-negative is non-negative. */
  lemma {:induction false} SumNonNegative(s: seq<real>)
    requires forall i :: 0 <= i < |s| ==> s[i] >= 0.0
    ensures Sum(s) >= 0.0
  {
    if s != [] { SumNonNegative(s[1..]); }
  }

  /** a carries the sign of x: it is 0 where x is 0, non-negative where x
      is positive and non-positive where x is negative. */
  predicate SignOf(a: real, x: real)
  {
    && (x > 0.0 ==> a >= 0.0)
    && (x < 0.0 ==> a <= 0.0)
    && (x == 0.0 ==> a == 0.0)
  }

  /** r is the non-negative square root of x (what numpy's sqrt returns). */
  predicate IsSqrt(r: real, x: real)
  {
    r >= 0.0 && r * r == x
  }

  /** A matrix with the given numbers of rows and columns, stored row by row. */
  predicate IsMatrix(m: seq<seq<real>>, rows: nat, cols: nat)
  {
    |m| == rows && forall i :: 0 <= i < |m| ==> |m[i]| == cols
  }

  /** Column j of a matrix (numpy's data[:, j]). */
  function Column(m: seq<seq<real>>, j: nat): (c: seq<real>)
    requires forall i :: 0 <= i < |m| ==> j < |m[i]|
    ensures |c| == |m| && forall i :: 0 <= i < |m| ==> c[i] == m[i][j]
  {
    seq(|m|, i requires 0 <= i < |m| => m[i][j])
  }

  /** Python's subscript s[i], where a negative i counts from the end;
      None is the IndexError. */
  function PyIndex<T>(s: seq<T>, i: int): (r: Option<T>)
    ensures r.Some? <==> -|s| <= i < |s|
    ensures 0 <= i < |s| ==> r == Some(s[i])
    ensures -|s| <= i < 0 ==> r == Some(s[|s| + i])
  {
    if 0 <= i < |s| then Some(s[i])
    else if -|s| <= i < 0 then Some(s[|s| + i])
    else None
  }

  /** Python's slice s[i:], which clamps i to the bounds of s. */
  function PySliceFrom(s: seq<real>, i: int): (r: seq<real>)
    ensures 0 <= i <= |s| ==> r == s[i..]
    ensures i >= |s| ==> r == []
    ensures i <= -|s| ==> r == s
  {
    if i >= |s| then []
    else if i >= 0 then s[i..]
    else if i + |s| >= 0 then s[i + |s|..]
    else s
  }

  /** Python's slice s[:i]. */
  function PySliceTo(s: seq<real>, i: int): (r: seq<real>)
    ensures 0 <= i <= |s| ==> r == s[..i]
    ensures i >= |s| ==> r == s
    ensures i <= -|s| ==> r == []
  {
    if i >= |s| then s
    else if i >= 0 then s[..i]
    else if i + |s| >= 0 then s[..i + |s|]
    else []
  }
}
