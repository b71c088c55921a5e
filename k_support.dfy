/** The proximity operator of the squared k-support norm (McDonald, Pontil
    and Stamos, "New perspectives on k-support and cluster norms", JMLR 17,
    Algorithm 1): a grid of candidate values of alpha, a bounded binary
    search for two grid points whose theta sums bracket k, a linear
    interpolation between them, and a per-entry shrink by theta.

    The inf and nan values numpy computes along the way (a zero entry of
    the data divides by zero in the grid, an interpolation can divide by a
    zero slope, the final shrink can divide 0 by 0) are carried as Float
    values, as numpy carries them. */
module KSupport {
  import opened Wrappers
  import opened Numeric
  import opened Floats

  datatype Error =
    | IndexError   // a subscript outside the array
    | NotFound     // the search returned -1, which cannot be unpacked

  /** A k_support_norm object: k and weights = lmbda * 1. */
  datatype KSupportNorm = KSupportNorm(k: int, weights: real)

  /** theta_i for a magnitude x: alpha * x - 2 * weights * extra clipped to
      [0,1] (Corollary 16 of the paper). */
  function Theta(x: real, alpha: real, weights: real, extraFactor: real): (t: real)
    ensures 0.0 <= t <= 1.0
  {
    var v := x * alpha - 2.0 * weights * extraFactor;
    (if v > 1.0 then 1.0 else 0.0) + v * (if v <= 1.0 && v >= 0.0 then 1.0 else 0.0)
  }

  /** The three cases of Corollary 16: 1 above 1, 0 below 0, and the affine
      value in between. */
  lemma ThetaCases(x: real, alpha: real, weights: real, extraFactor: real)
    ensures var v := x * alpha - 2.0 * weights * extraFactor;
      && (v > 1.0 ==> Theta(x, alpha, weights, extraFactor) == 1.0)
      && (v < 0.0 ==> Theta(x, alpha, weights, extraFactor) == 0.0)
      && (0.0 <= v <= 1.0 ==> Theta(x, alpha, weights, extraFactor) == v)
  {
  }

  /** For a magnitude x >= 0, theta never decreases as alpha grows. */
  lemma ThetaMonotone(x: real, a1: real, a2: real, weights: real, extraFactor: real)
    requires x >= 0.0 && a1 <= a2
    ensures Theta(x, a1, weights, extraFactor) <= Theta(x, a2, weights, extraFactor)
  {
    var c := 2.0 * weights * extraFactor;
    var v1, v2 := x * a1 - c, x * a2 - c;
    AffineOrder(x, a1, a2, c, v1, v2);
    ThetaClamped(x, a1, weights, extraFactor, v1);
    ThetaClamped(x, a2, weights, extraFactor, v2);
    ClampedMonotone(v1, v2, Theta(x, a1, weights, extraFactor), Theta(x, a2, weights, extraFactor));
  }

  /** Theta at alpha is the clamp of x * alpha - 2 * weights * extraFactor. */
  lemma ThetaClamped(x: real, alpha: real, weights: real, extraFactor: real, v: real)
    requires v == x * alpha - 2.0 * weights * extraFactor
    ensures Clamped(v, Theta(x, alpha, weights, extraFactor))
  {
    ThetaCases(x, alpha, weights, extraFactor);
  }

  /** x * alpha - c grows with alpha for x >= 0. */
  lemma AffineOrder(x: real, a: real, b: real, c: real, u: real, v: real)
    requires x >= 0.0 && a <= b && u == x * a - c && v == x * b - c
    ensures u <= v
  {
    MulLeq(a, b, x);
  }

  /** Clamping to [0, 1] keeps the order. */
  lemma ClampedMonotone(v1: real, v2: real, t1: real, t2: real)
    requires v1 <= v2 && Clamped(v1, t1) && Clamped(v2, t2)
    ensures t1 <= t2
  {
  }


  /** _compute_theta: theta_i for every |w_i|. */
  function ComputeTheta(w: seq<real>, alpha: real, weights: real, extraFactor: real): (theta: seq<real>)
    ensures |theta| == |w|
    ensures forall i :: 0 <= i < |w| ==> theta[i] == Theta(Abs(w[i]), alpha, weights, extraFactor)
  {
    seq(|w|, i requires 0 <= i < |w| => Theta(Abs(w[i]), alpha, weights, extraFactor))
  }

  /** _compute_theta(...).sum() */
  function ThetaSum(w: seq<real>, alpha: real, weights: real, extraFactor: real): real
  {
    Sum(ComputeTheta(w, alpha, weights, extraFactor))
  }

  /** The theta sum lies in [0, len(w)] and never decreases as alpha grows:
      the monotonicity the binary search relies on. */
  lemma {:induction false} ThetaSumMonotone(w: seq<real>, a1: real, a2: real, weights: real, extraFactor: real)
    requires a1 <= a2
    ensures 0.0 <= ThetaSum(w, a1, weights, extraFactor) <= ThetaSum(w, a2, weights, extraFactor) <= |w| as real
  {
    if w != [] {
      ThetaSumMonotone(w[1..], a1, a2, weights, extraFactor);
      ThetaMonotone(Abs(w[0]), a1, a2, weights, extraFactor);
      ThetaSumCons(w, a1, weights, extraFactor);
      ThetaSumCons(w, a2, weights, extraFactor);
    }
  }

  /** _interpolate as written: the intercept is computed as
      sum_0 - slope * sum_1. None is a division by zero (equal grid points
      or a zero slope), which numpy turns into inf or nan. */
  function InterpolateAsWritten(k: real, a0: real, a1: real, s0: real, s1: real): (r: Option<real>)
    ensures s0 == k ==> r == Some(a0)
    ensures s0 != k && s1 == k ==> r == Some(a1)
    ensures r.None? <==> s0 != k && s1 != k && (a1 == a0 || s1 == s0)
  {
    if s0 == k then Some(a0)
    else if s1 == k then Some(a1)
    else if a1 == a0 then None
    else
      var slope := (s1 - s0) / (a1 - a0);
      if slope == 0.0 then None
      else
        var b := s0 - slope * s1;
        Some((k - b) / slope)
  }

  /** _interpolate as written on finite float64 values, with numpy's result
      where InterpolateAsWritten divides by zero. For equal grid values the
      slope is an infinity (or 0 / 0), so b and then alpha* are nan (an
      infinity divided by an infinity, or nan throughout). For equal sums the
      slope is a zero with the sign of alpha_1 - alpha_0 and b is sum_0, so
      (k - sum_0) / slope is the same signed infinity the corrected
      interpolation gives. */
  function InterpolateAsWrittenF(k: real, a0: real, a1: real, s0: real, s1: real): (r: Float)
    ensures r.Fin? <==> InterpolateAsWritten(k, a0, a1, s0, s1).Some?
    ensures r.Fin? ==> r.x == InterpolateAsWritten(k, a0, a1, s0, s1).value
    ensures r.NaN? <==> s0 != k && s1 != k && a0 == a1
    ensures s0 != k && s1 != k && a0 != a1 && s0 == s1 ==>
      (r.PosInf? || r.NegInf?) && r == InterpolateF(k, Fin(a0), Fin(a1), Fin(s0), Fin(s1))
  {
    match InterpolateAsWritten(k, a0, a1, s0, s1)
    case Some(v) => Fin(v)
    case None => if a0 == a1 then NaN else SignedInf((k > s0) == (a1 > a0))
  }

  /** _interpolate with the intercept of the line through (a0, s0) and
      (a1, s1): b = s0 - slope * a0. The result is the point where that line
      reaches k. */
  function Interpolate(k: real, a0: real, a1: real, s0: real, s1: real): (r: Option<real>)
    ensures s0 == k ==> r == Some(a0)
    ensures s0 != k && s1 == k ==> r == Some(a1)
    ensures r.None? <==> s0 != k && s1 != k && (a1 == a0 || s1 == s0)
    ensures r.Some? && s0 != k && s1 != k ==> s0 + (s1 - s0) / (a1 - a0) * (r.value - a0) == k
  {
    if s0 == k then Some(a0)
    else if s1 == k then Some(a1)
    else if a1 == a0 then None
    else
      var slope := (s1 - s0) / (a1 - a0);
      if slope == 0.0 then None
      else
        var b := s0 - slope * a0;
        var r := (k - b) / slope;
        LineThrough(slope, s0, a0, k, r);
        Some(r)
  }

  lemma LineThrough(slope: real, s0: real, a0: real, k: real, r: real)
    requires slope != 0.0 && r == (k - (s0 - slope * a0)) / slope
    ensures s0 + slope * (r - a0) == k
  {
    assert slope * r == k - (s0 - slope * a0);
  }

  /** When the grid points are increasing and their sums bracket k strictly,
      the interpolated alpha lies strictly between them. */
  lemma InterpolateBetween(k: real, a0: real, a1: real, s0: real, s1: real)
    requires a0 < a1 && s0 < k < s1
    ensures Interpolate(k, a0, a1, s0, s1).Some?
    ensures a0 < Interpolate(k, a0, a1, s0, s1).value < a1
  {
    var slope := (s1 - s0) / (a1 - a0);
    assert slope * (a1 - a0) == s1 - s0;
    assert slope > 0.0 by {
      if slope <= 0.0 { MulLeq(slope, 0.0, a1 - a0); }
    }
    var r := Interpolate(k, a0, a1, s0, s1).value;
    var d := r - a0;
    assert slope * d == k - s0;
    assert d > 0.0 by {
      if d <= 0.0 { MulLeq(d, 0.0, slope); }
    }
    assert d < a1 - a0 by {
      if d >= a1 - a0 { MulLeq(a1 - a0, d, slope); }
    }
  }

  /** The intercept the source uses differs from the line's: on the grid
      points 0 and 1 with sums 0 and 2 and k = 1, the source returns 2.5,
      where the line through both points reaches 1 at 0.5 (and is at 5 at
      2.5). */
  lemma InterpolateAsWrittenMissesTarget()
    ensures InterpolateAsWritten(1.0, 0.0, 1.0, 0.0, 2.0) == Some(2.5)
    ensures Interpolate(1.0, 0.0, 1.0, 0.0, 2.0) == Some(0.5)
    ensures 0.0 + (2.0 - 0.0) / (1.0 - 0.0) * (2.5 - 0.0) != 1.0
  {
  }

  /** Strictly increasing: sorted with no repeated value (np.sort(np.unique)). */
  predicate StrictlyIncreasing(s: seq<real>)
  {
    forall i, j :: 0 <= i < j < |s| ==> s[i] < s[j]
  }

  /** x put into its place in a sorted sequence without repeats. */
  function Insert(x: real, s: seq<real>): (r: seq<real>)
    requires StrictlyIncreasing(s)
    ensures StrictlyIncreasing(r)
    ensures forall y :: y in r <==> y == x || y in s
  {
    if s == [] then [x]
    else if x < s[0] then [x] + s
    else if x == s[0] then s
    else
      var rest := Insert(x, s[1..]);
      forall y | y in rest ensures s[0] < y {
        if y != x {
          var j :| 0 <= j < |s[1..]| && s[1..][j] == y;
          assert s[j + 1] == y;
        }
      }
      ConsIncreasing(s[0], rest);
      [s[0]] + rest
  }

  lemma ConsIncreasing(a: real, s: seq<real>)
    requires StrictlyIncreasing(s) && forall y :: y in s ==> a < y
    ensures StrictlyIncreasing([a] + s)
  {
    var r := [a] + s;
    forall i, j | 0 <= i < j < |r| ensures r[i] < r[j] {
      assert r[j] == s[j - 1] && r[j] in s;
      if i > 0 { assert r[i] == s[i - 1]; }
    }
  }

  /** np.sort(np.unique(s)): the distinct values of s in increasing order. */
  function SortedUnique(s: seq<real>): (r: seq<real>)
    ensures StrictlyIncreasing(r)
    ensures forall y :: y in r <==> y in s
  {
    if s == [] then [] else Insert(s[0], SortedUnique(s[1..]))
  }

  /** The candidate grid of _find_alpha before sorting: c / |w_i| followed
      by (c + 1) / |w_i|, with c = 2 * weights * extra. Where |w_i| is not 0
      the two values are the points where alpha * |w_i| - c reaches 0 and 1;
      a zero entry divides by zero (inf, or nan for 0 / 0). */
  function Grid(w: seq<real>, weights: real, extraFactor: real): (g: seq<Float>)
    ensures Breakpoints(g, w, weights * 2.0 * extraFactor)
  {
    var c := weights * 2.0 * extraFactor;
    var n := |w|;
    var g := seq(2 * n, j requires 0 <= j < 2 * n =>
      if j < |w| then Divide(c, Abs(w[j])) else Divide(c + 1.0, Abs(w[j - |w|])));
    GridEntries(w, c, g);
    g
  }

  /** Entry i of g is finite exactly when w_i is not 0, and then times |w_i|
      it gives c; entry |w| + i likewise gives c + 1. At a zero entry both
      are c / 0 and (c + 1) / 0. */
  predicate Breakpoints(g: seq<Float>, w: seq<real>, c: real)
  {
    && |g| == 2 * |w|
    && forall i :: 0 <= i < |w| ==> EntryBreakpoints(g[i], g[|w| + i], w[i], c)
  }

  /** g0 and g1 are the two breakpoints of an entry x: g0 * |x| = c and
      g1 * |x| = c + 1 when x is not 0, c / 0 and (c + 1) / 0 when it is. */
  predicate EntryBreakpoints(g0: Float, g1: Float, x: real, c: real)
  {
    && (g0.Fin? <==> x != 0.0) && (g1.Fin? <==> x != 0.0)
    && (x != 0.0 ==> g0.x * Abs(x) == c && g1.x * Abs(x) == c + 1.0)
    && (x == 0.0 ==> g0 == Divide(c, 0.0) && g1 == Divide(c + 1.0, 0.0))
  }

  lemma GridEntries(w: seq<real>, c: real, g: seq<Float>)
    requires |g| == 2 * |w|
    requires forall j {:trigger g[j]} :: 0 <= j < 2 * |w| ==>
      g[j] == (if j < |w| then Divide(c, Abs(w[j])) else Divide(c + 1.0, Abs(w[j - |w|])))
    ensures Breakpoints(g, w, c)
  {
    forall i | 0 <= i < |w|
      ensures EntryBreakpoints(g[i], g[|w| + i], w[i], c)
    {
      assert g[i] == Divide(c, Abs(w[i]));
      var j := |w| + i;
      assert j - |w| == i && !(j < |w|);
      assert g[j] == Divide(c + 1.0, Abs(w[i]));
      GridEntry(g[i], g[|w| + i], w[i], c);
    }
  }

  /** The two breakpoints of one entry x are c / |x| and (c + 1) / |x|. */
  lemma GridEntry(g0: Float, g1: Float, x: real, c: real)
    requires g0 == Divide(c, Abs(x)) && g1 == Divide(c + 1.0, Abs(x))
    ensures EntryBreakpoints(g0, g1, x, c)
  {
  }

  /** The finite values of g, in order. */
  function FiniteValues(g: seq<Float>): (r: seq<real>)
    ensures forall y :: y in r <==> Fin(y) in g
  {
    if g == [] then []
    else
      assert g == [g[0]] + g[1..];
      (if g[0].Fin? then [g[0].x] else []) + FiniteValues(g[1..])
  }

  /** Every value of s as a finite Float. */
  function Lift(s: seq<real>): (r: seq<Float>)
    ensures |r| == |s| && forall i :: 0 <= i < |s| ==> r[i] == Fin(s[i])
    ensures forall a :: a in r <==> a.Fin? && a.x in s
  {
    seq(|s|, i requires 0 <= i < |s| => Fin(s[i]))
  }

  /** np.sort(np.unique(g)) on numpy values: -inf first, then the distinct
      finite values in increasing order, +inf, and one nan last (np.unique
      collapses the nan values). */
  function SortedUniqueF(g: seq<Float>): (r: seq<Float>)
    ensures StrictlyIncreasingF(r)
    ensures forall a :: a in r <==> a in g
  {
    var low := if NegInf in g then [NegInf] else [];
    var mid := Lift(SortedUnique(FiniteValues(g)));
    var high := (if PosInf in g then [PosInf] else []) + (if NaN in g then [NaN] else []);
    SortedUniqueParts(g, low, mid, high);
    low + mid + high
  }

  lemma SortedUniqueParts(g: seq<Float>, low: seq<Float>, mid: seq<Float>, high: seq<Float>)
    requires low == if NegInf in g then [NegInf] else []
    requires mid == Lift(SortedUnique(FiniteValues(g)))
    requires high == (if PosInf in g then [PosInf] else []) + (if NaN in g then [NaN] else [])
    ensures StrictlyIncreasingF(low + mid + high)
    ensures forall a :: a in low + mid + high <==> a in g
  {
    var finite := SortedUnique(FiniteValues(g));
    LiftIncreasing(finite);
    HighIncreasing(g, high);
    ConcatIncreasing(low, mid);
    ConcatIncreasing(low + mid, high);
    forall a ensures a in low + mid + high <==> a in g {
      assert a in low + mid + high <==> a in low || a in mid || a in high;
      match a
      case Fin(x) =>
        assert a !in low && a !in high;
        assert a in mid <==> x in finite;
      case _ =>
        assert a !in mid;
    }
  }

  lemma HighIncreasing(g: seq<Float>, high: seq<Float>)
    requires high == (if PosInf in g then [PosInf] else []) + (if NaN in g then [NaN] else [])
    ensures StrictlyIncreasingF(high)
    ensures forall a :: a in high ==> a.PosInf? || a.NaN?
  {
    if PosInf in g && NaN in g {
      assert high == [PosInf, NaN];
    } else if PosInf in g {
      assert high == [PosInf];
    } else if NaN in g {
      assert high == [NaN];
    } else {
      assert high == [];
    }
  }

  lemma LiftIncreasing(s: seq<real>)
    requires StrictlyIncreasing(s)
    ensures StrictlyIncreasingF(Lift(s))
  {
  }

  lemma ConcatIncreasing(a: seq<Float>, b: seq<Float>)
    requires StrictlyIncreasingF(a) && StrictlyIncreasingF(b)
    requires forall x, y :: x in a && y in b ==> Before(x, y)
    ensures StrictlyIncreasingF(a + b)
  {
    var r := a + b;
    forall i, j | 0 <= i < j < |r| ensures Before(r[i], r[j]) {
      if j < |a| {
        assert r[i] == a[i] && r[j] == a[j];
      } else if i >= |a| {
        assert r[i] == b[i - |a|] && r[j] == b[j - |a|];
      } else {
        assert r[i] == a[i] && r[i] in a;
        assert r[j] == b[j - |a|] && r[j] in b;
      }
    }
  }

  /** The grid as _find_alpha sorts it. */
  function Alpha(w: seq<real>, weights: real, extraFactor: real): seq<Float>
  {
    SortedUniqueF(Grid(w, weights, extraFactor))
  }

  /** _compute_theta(w, alpha, extra).sum() at a grid value. At an infinite
      or nan alpha every theta_i is nan (the masked product is inf * 0 or
      nan * 0), so the sum is nan unless w is empty. */
  function ThetaSumF(w: seq<real>, alpha: Float, weights: real, extraFactor: real): (r: Float)
    ensures alpha.Fin? ==> r == Fin(ThetaSum(w, alpha.x, weights, extraFactor))
    ensures |w| > 0 ==> (r.Fin? <==> alpha.Fin?) && (!r.Fin? ==> r.NaN?)
  {
    if alpha.Fin? then Fin(ThetaSum(w, alpha.x, weights, extraFactor))
    else if w == [] then Fin(0.0)
    else NaN
  }

  /** The theta sum at alpha[i] (a Python index), or None for an IndexError. */
  function SumAt(data: seq<real>, alpha: seq<Float>, i: int, weights: real, extraFactor: real): (r: Option<Float>)
    ensures r.Some? <==> -|alpha| <= i < |alpha|
    ensures r.Some? ==> r.value == ThetaSumF(data, PyIndex(alpha, i).value, weights, extraFactor)
  {
    match PyIndex(alpha, i)
    case None => None
    case Some(a) => Some(ThetaSumF(data, a, weights, extraFactor))
  }

  /** np.abs(s - 1e-4) == k, false for an infinite or nan s. */
  predicate AbsOffEq(s: Float, k: real)
  {
    s.Fin? && Abs(s.x - 0.0001) == k
  }

  /** The outcome of _binary_search: the pair alpha[mid], alpha[mid + 1]
      with the sums it holds at the end, the sentinel -1, or an IndexError. */
  datatype Search = Found(mid: int, a0: Float, a1: Float, s0: Float, s1: Float) | Sentinel | SearchIndexError

  /** What _binary_search guarantees, with `steps` its loop counter cnt.
      The sums at alpha[0] and alpha[len(data) - 1] are checked first: when
      the first reaches k the pair starts at 0, when the last stays below k
      it starts at len(data) - 2, and a pair found this way carries those
      two sums. Otherwise the loop runs, at most len(alpha) times, and a
      pair it finds carries the sums at that pair, which bracket k or meet
      the 1e-4 test of the particular case. */
  predicate SearchOutcome(data: seq<real>, alpha: seq<Float>, k: real, weights: real, extraFactor: real,
                          r: Search, steps: nat)
  {
    var first := SumAt(data, alpha, 0, weights, extraFactor);
    var last := SumAt(data, alpha, |data| - 1, weights, extraFactor);
    && steps <= |alpha|
    && (r.Found? ==> PyIndex(alpha, r.mid) == Some(r.a0) && PyIndex(alpha, r.mid + 1) == Some(r.a1))
    && (first.None? || last.None? ==> r == SearchIndexError && steps == 0)
    && (steps == 0 && r.Found? ==>
         && first == Some(r.s0) && last == Some(r.s1)
         && (GreaterEq(r.s0, k) ==> r.mid == 0)
         && (!GreaterEq(r.s0, k) ==> Less(r.s1, k) && r.mid == |data| - 2))
    && (steps > 0 ==> first.Some? && !GreaterEq(first.value, k) && last.Some? && !Less(last.value, k))
    && (steps > 0 && r.Found? ==>
         && SumAt(data, alpha, r.mid, weights, extraFactor) == Some(r.s0)
         && SumAt(data, alpha, r.mid + 1, weights, extraFactor) == Some(r.s1)
         && ((LessEq(r.s0, k) && GreaterEq(r.s1, k)) || AbsOffEq(r.s0, k) || AbsOffEq(r.s1, k)))
  }

  /** _binary_search, with numpy's comparisons (false against nan). */
  method BinarySearch(data: seq<real>, alpha: seq<Float>, k: real, weights: real, extraFactor: real)
    returns (r: Search, steps: nat)
    ensures SearchOutcome(data, alpha, k, weights, extraFactor, r, steps)
  {
    var firstIdx := 0;
    var lastIdx := |data| - 1;
    var found := false;
    var prevMidpoint := 0;
    var cnt := 0;
    var midpoint := 0;

    var p0 := SumAt(data, alpha, 0, weights, extraFactor);
    if p0.None? { return SearchIndexError, 0; }
    var p1 := SumAt(data, alpha, |data| - 1, weights, extraFactor);
    if p1.None? { return SearchIndexError, 0; }
    var sum0, sum1 := p0.value, p1.value;
    if Less(sum1, k) {
      midpoint := |data| - 2;
      found := true;
    }
    if GreaterEq(sum0, k) {
      found := true;
      midpoint := 0;
    }

    while firstIdx <= lastIdx && !found && cnt < |alpha|
      invariant cnt <= |alpha|
      invariant cnt == 0 ==> sum0 == p0.value && sum1 == p1.value
      invariant cnt == 0 ==> (found <==> Less(sum1, k) || GreaterEq(sum0, k))
      invariant cnt == 0 && found ==> (GreaterEq(sum0, k) ==> midpoint == 0) && (!GreaterEq(sum0, k) ==> midpoint == |data| - 2)
      invariant cnt > 0 ==> !GreaterEq(p0.value, k) && !Less(p1.value, k)
      invariant cnt > 0 ==>
        && SumAt(data, alpha, midpoint, weights, extraFactor) == Some(sum0)
        && SumAt(data, alpha, midpoint + 1, weights, extraFactor) == Some(sum1)
      invariant cnt > 0 && found ==> (LessEq(sum0, k) && GreaterEq(sum1, k)) || AbsOffEq(sum0, k) || AbsOffEq(sum1, k)
      decreases |alpha| - cnt
    {
      // Python's // and Dafny's / agree for the positive divisor 2.
      midpoint := (firstIdx + lastIdx) / 2;
      cnt := cnt + 1;

      if prevMidpoint == midpoint {
        var q0 := SumAt(data, alpha, firstIdx, weights, extraFactor);
        if q0.None? { return SearchIndexError, cnt; }
        var q1 := SumAt(data, alpha, lastIdx, weights, extraFactor);
        if q1.None? { return SearchIndexError, cnt; }
        if AbsOffEq(q0.value, k) {
          found := true;
          midpoint := firstIdx;
        }
        if AbsOffEq(q1.value, k) {
          found := true;
          midpoint := lastIdx - 1;
        }
        // The source's last particular case tests first_idx - last_idx
        // against 1 and 2, which the loop guard first_idx <= last_idx rules
        // out: its body never runs.
        assert firstIdx - lastIdx != 1 && firstIdx - lastIdx != 2;
      }

      var m0 := SumAt(data, alpha, midpoint, weights, extraFactor);
      if m0.None? { return SearchIndexError, cnt; }
      var m1 := SumAt(data, alpha, midpoint + 1, weights, extraFactor);
      if m1.None? { return SearchIndexError, cnt; }
      sum0, sum1 := m0.value, m1.value;

      if LessEq(sum0, k) && GreaterEq(sum1, k) {
        found := true;
      } else if Less(sum1, k) {
        firstIdx := midpoint;
      } else if Greater(sum0, k) {
        lastIdx := midpoint;
      }
      prevMidpoint := midpoint;
    }

    if found {
      var x0 := PyIndex(alpha, midpoint);
      if x0.None? { return SearchIndexError, cnt; }
      var x1 := PyIndex(alpha, midpoint + 1);
      if x1.None? { return SearchIndexError, cnt; }
      return Found(midpoint, x0.value, x1.value, sum0, sum1), cnt;
    }
    return Sentinel, cnt;
  }

  /** _interpolate (with the corrected intercept of Interpolate) on numpy
      values; the sums are theta sums, finite or nan. An endpoint whose sum
      is k is returned as it is, and a sum that is not finite makes the
      result nan. A finite pair gives Interpolate's value, and where
      Interpolate divides by zero: nan for equal grid values, and for equal
      sums the infinity of (k - sum_0) divided by a zero that carries the
      sign of alpha_1 - alpha_0. An infinite alpha_1 makes the slope a zero
      with the sign of (sum_1 - sum_0) / alpha_1 and the intercept sum_0; an
      infinite or nan alpha_0 makes the intercept nan. */
  function InterpolateF(k: real, a0: Float, a1: Float, s0: Float, s1: Float): (r: Float)
    ensures s0 == Fin(k) ==> r == a0
    ensures s0 != Fin(k) && s1 == Fin(k) ==> r == a1
    ensures s0 != Fin(k) && s1 != Fin(k) && !(s0.Fin? && s1.Fin?) ==> r.NaN?
    ensures a0.Fin? && a1.Fin? && s0.Fin? && s1.Fin? && s0 != Fin(k) && s1 != Fin(k) ==>
      && (r.Fin? <==> Interpolate(k, a0.x, a1.x, s0.x, s1.x).Some?)
      && (r.Fin? ==> r.x == Interpolate(k, a0.x, a1.x, s0.x, s1.x).value)
      && (r.NaN? <==> a0.x == a1.x)
    ensures s0 != Fin(k) && s1 != Fin(k) && !a0.Fin? ==> r.NaN?
  {
    if s0 == Fin(k) then a0
    else if s1 == Fin(k) then a1
    else if !(s0.Fin? && s1.Fin?) then NaN
    else if a0.Fin? && a1.Fin? then
      match Interpolate(k, a0.x, a1.x, s0.x, s1.x)
      case Some(v) => Fin(v)
      case None => if a0.x == a1.x then NaN else SignedInf((k > s0.x) == (a1.x > a0.x))
    else if a0.Fin? && (a1.PosInf? || a1.NegInf?) then
      SignedInf((k > s0.x) == ((s1.x >= s0.x) == a1.PosInf?))
    else NaN
  }

  /** The value _find_alpha returns for a search outcome, or its error: the
      sentinel -1 cannot be unpacked into four values, and an IndexError
      propagates. */
  function AlphaStar(k: real, s: Search): (r: Result<Float, Error>)
    ensures r.Ok? <==> s.Found?
    ensures s.Sentinel? ==> r == Err(NotFound)
    ensures s.SearchIndexError? ==> r == Err(IndexError)
  {
    match s
    case Found(_, a0, a1, s0, s1) => Ok(InterpolateF(k, a0, a1, s0, s1))
    case Sentinel => Err(NotFound)
    case SearchIndexError => Err(IndexError)
  }

  /** The pair found holds finite sums sum_0 <= k <= sum_1. */
  predicate Brackets(s: Search, k: real)
  {
    s.Found? && s.s0.Fin? && s.s1.Fin? && s.s0.x <= k <= s.s1.x
  }

  /** _find_alpha: the sorted distinct grid, the search, and the
      interpolation between the pair it returns. When the pair's sums
      bracket k, alpha* is finite and sum(theta(alpha*)) = k, the promise of
      the docstring. The search outcome is returned beside alpha*. */
  method FindAlpha(w: seq<real>, k: int, weights: real, extraFactor: real)
    returns (r: Result<Float, Error>, search: Search, steps: nat)
    ensures SearchOutcome(w, Alpha(w, weights, extraFactor), k as real, weights, extraFactor, search, steps)
    ensures r == AlphaStar(k as real, search)
    ensures Brackets(search, k as real) ==>
      r.Ok? && r.value.Fin? && ThetaSum(w, r.value.x, weights, extraFactor) == k as real
  {
    var grid := Grid(w, weights, extraFactor);
    var alpha := SortedUniqueF(grid);
    search, steps := BinarySearch(w, alpha, k as real, weights, extraFactor);
    r := AlphaStar(k as real, search);
    if Brackets(search, k as real) {
      AlphaStarReachesK(w, weights, extraFactor, k as real, search, steps);
    }
  }

  /** Whenever the pair the search returns brackets k, the interpolated
      alpha* is finite and its theta sum is exactly k. */
  lemma AlphaStarReachesK(w: seq<real>, weights: real, extraFactor: real, k: real, s: Search, steps: nat)
    requires SearchOutcome(w, Alpha(w, weights, extraFactor), k, weights, extraFactor, s, steps)
    requires Brackets(s, k)
    ensures AlphaStar(k, s).Ok? && AlphaStar(k, s).value.Fin?
    ensures ThetaSum(w, AlphaStar(k, s).value.x, weights, extraFactor) == k
  {
    var alpha := Alpha(w, weights, extraFactor);
    var grid := Grid(w, weights, extraFactor);
    assert AlphaStar(k, s) == Ok(InterpolateF(k, s.a0, s.a1, s.s0, s.s1));
    assert |w| > 0 by {
      assert alpha[0] in grid;
    }
    if steps == 0 {
      FirstCheckReachesK(w, weights, extraFactor, k, alpha, s);
    } else {
      LoopReachesK(w, weights, extraFactor, k, alpha, grid, s);
    }
  }

  /** A pair from the first check that brackets k starts at 0 with the sum
      k at alpha[0], which the interpolation returns. */
  lemma FirstCheckReachesK(w: seq<real>, weights: real, extraFactor: real, k: real, alpha: seq<Float>, s: Search)
    requires |w| > 0 && Brackets(s, k)
    requires SearchOutcome(w, alpha, k, weights, extraFactor, s, 0)
    ensures InterpolateF(k, s.a0, s.a1, s.s0, s.s1).Fin?
    ensures ThetaSum(w, InterpolateF(k, s.a0, s.a1, s.s0, s.s1).x, weights, extraFactor) == k
  {
    assert SumAt(w, alpha, 0, weights, extraFactor) == Some(s.s0);
    assert s.s0 == Fin(k) && s.mid == 0;
    FiniteSumAt(w, alpha, 0, weights, extraFactor, s.s0);
  }

  /** A pair from the loop that brackets k: an endpoint with the sum k is
      returned, and otherwise the sums lie strictly around k. */
  lemma LoopReachesK(w: seq<real>, weights: real, extraFactor: real, k: real, alpha: seq<Float>, grid: seq<Float>, s: Search)
    requires |w| > 0 && Brackets(s, k)
    requires SumAt(w, alpha, s.mid, weights, extraFactor) == Some(s.s0)
    requires SumAt(w, alpha, s.mid + 1, weights, extraFactor) == Some(s.s1)
    requires PyIndex(alpha, s.mid) == Some(s.a0) && PyIndex(alpha, s.mid + 1) == Some(s.a1)
    requires Breakpoints(grid, w, weights * 2.0 * extraFactor) && StrictlyIncreasingF(alpha)
    requires forall a :: a in grid ==> a in alpha
    ensures InterpolateF(k, s.a0, s.a1, s.s0, s.s1).Fin?
    ensures ThetaSum(w, InterpolateF(k, s.a0, s.a1, s.s0, s.s1).x, weights, extraFactor) == k
  {
    FiniteSumAt(w, alpha, s.mid, weights, extraFactor, s.s0);
    FiniteSumAt(w, alpha, s.mid + 1, weights, extraFactor, s.s1);
    if s.s0.x != k && s.s1.x != k {
      PairReachesK(w, weights, extraFactor, k, alpha, grid, s.mid, s.a0.x, s.a1.x);
    }
  }

  /** A finite theta sum at alpha[i] for a non-empty w is the sum at a
      finite grid value. */
  lemma FiniteSumAt(w: seq<real>, alpha: seq<Float>, i: int, weights: real, extraFactor: real, sum: Float)
    requires |w| > 0 && SumAt(w, alpha, i, weights, extraFactor) == Some(sum) && sum.Fin?
    ensures PyIndex(alpha, i).Some? && PyIndex(alpha, i).value.Fin?
    ensures ThetaSum(w, PyIndex(alpha, i).value.x, weights, extraFactor) == sum.x
  {
  }

  /** The pair alpha[mid], alpha[mid + 1] with sums strictly around k: the
      pair is two neighbours of the sorted grid (mid = -1 would pair the
      largest value with the smallest, whose sums cannot be in that order),
      so the interpolation reaches k. */
  lemma PairReachesK(w: seq<real>, weights: real, extraFactor: real, k: real, alpha: seq<Float>, grid: seq<Float>,
                     mid: int, a0: real, a1: real)
    requires Breakpoints(grid, w, weights * 2.0 * extraFactor) && StrictlyIncreasingF(alpha)
    requires forall a :: a in grid ==> a in alpha
    requires PyIndex(alpha, mid) == Some(Fin(a0)) && PyIndex(alpha, mid + 1) == Some(Fin(a1))
    requires ThetaSum(w, a0, weights, extraFactor) < k < ThetaSum(w, a1, weights, extraFactor)
    ensures var s0, s1 := ThetaSum(w, a0, weights, extraFactor), ThetaSum(w, a1, weights, extraFactor);
      Interpolate(k, a0, a1, s0, s1).Some? && ThetaSum(w, Interpolate(k, a0, a1, s0, s1).value, weights, extraFactor) == k
  {
    var n := |alpha|;
    if mid == -1 {
      assert alpha[n - 1] == Fin(a0) && alpha[0] == Fin(a1);
      if n > 1 {
        assert Before(alpha[0], alpha[n - 1]);
      }
      ThetaSumMonotone(w, a1, a0, weights, extraFactor);
      assert false;
    } else {
      var j := if mid >= 0 then mid else mid + n;
      assert alpha[j] == Fin(a0) && alpha[j + 1] == Fin(a1);
      AdjacentNoCrossing(w, grid, alpha, weights * 2.0 * extraFactor, j);
      assert weights * 2.0 * extraFactor == 2.0 * weights * extraFactor;
      InterpolationReachesK(w, a0, a1, k, weights, extraFactor);
    }
  }

  /** Between two neighbouring finite values of a sorted grid holding every
      breakpoint, no alpha * |w_i| - c crosses 0 or 1: the crossing point
      would be a grid value between them. */
  lemma AdjacentNoCrossing(w: seq<real>, grid: seq<Float>, alpha: seq<Float>, c: real, j: nat)
    requires Breakpoints(grid, w, c) && StrictlyIncreasingF(alpha)
    requires forall a :: a in grid ==> a in alpha
    requires j + 1 < |alpha| && alpha[j].Fin? && alpha[j + 1].Fin?
    ensures alpha[j].x < alpha[j + 1].x
    ensures forall i :: 0 <= i < |w| ==> NoCrossing(Abs(w[i]), alpha[j].x, alpha[j + 1].x, c)
  {
    assert Before(alpha[j], alpha[j + 1]);
    forall i | 0 <= i < |w| ensures NoCrossing(Abs(w[i]), alpha[j].x, alpha[j + 1].x, c) {
      GridEntryNoCrossing(w, grid, alpha, c, j, i);
    }
  }

  lemma GridEntryNoCrossing(w: seq<real>, grid: seq<Float>, alpha: seq<Float>, c: real, j: nat, i: nat)
    requires Breakpoints(grid, w, c) && StrictlyIncreasingF(alpha)
    requires forall a :: a in grid ==> a in alpha
    requires j + 1 < |alpha| && alpha[j].Fin? && alpha[j + 1].Fin? && alpha[j].x < alpha[j + 1].x
    requires i < |w|
    ensures NoCrossing(Abs(w[i]), alpha[j].x, alpha[j + 1].x, c)
  {
    var a0, a1 := alpha[j].x, alpha[j + 1].x;
    if w[i] != 0.0 {
      var x := Abs(w[i]);
      var g0, g1 := grid[i], grid[|w| + i];
      assert g0.Fin? && g0.x * x == c;
      assert g1.Fin? && g1.x * x == c + 1.0;
      GridValueNotBetween(grid, alpha, j, i);
      GridValueNotBetween(grid, alpha, j, |w| + i);
      EntryNoCrossing(x, a0, a1, c, g0.x, g1.x);
    } else {
      EntryNoCrossing(0.0, a0, a1, c, 0.0, 0.0);
    }
  }

  /** For x > 0 the crossings of x * alpha - c with 0 and 1 are at g0 and
      g1; when neither lies strictly between a0 and a1 there is no crossing
      there. For x = 0 the value does not move. */
  lemma EntryNoCrossing(x: real, a0: real, a1: real, c: real, g0: real, g1: real)
    requires x >= 0.0 && a0 < a1
    requires x != 0.0 ==> g0 * x == c && g1 * x == c + 1.0
    requires x != 0.0 ==> (g0 <= a0 || g0 >= a1) && (g1 <= a0 || g1 >= a1)
    ensures NoCrossing(x, a0, a1, c)
  {
    if x != 0.0 {
      if x * a0 - c < 0.0 < x * a1 - c { BetweenByProduct(x, g0, a0, a1, c); }
      if x * a0 - c < 1.0 < x * a1 - c { BetweenByProduct(x, g1, a0, a1, c + 1.0); }
    }
  }

  /** A finite grid value is a value of alpha, so it does not lie strictly
      between two neighbours of alpha. */
  lemma GridValueNotBetween(grid: seq<Float>, alpha: seq<Float>, j: nat, m: nat)
    requires StrictlyIncreasingF(alpha) && forall a :: a in grid ==> a in alpha
    requires j + 1 < |alpha| && alpha[j].Fin? && alpha[j + 1].Fin?
    requires m < |grid| && grid[m].Fin?
    ensures grid[m].x <= alpha[j].x || grid[m].x >= alpha[j + 1].x
  {
    assert grid[m] in grid;
    var n :| 0 <= n < |alpha| && alpha[n] == grid[m];
    NotBetween(alpha, j, n);
  }

  /** No value of a sorted grid lies strictly between two neighbours. */
  lemma NotBetween(alpha: seq<Float>, j: nat, m: nat)
    requires StrictlyIncreasingF(alpha) && j + 1 < |alpha| && m < |alpha|
    requires alpha[j].Fin? && alpha[j + 1].Fin? && alpha[m].Fin?
    ensures alpha[m].x <= alpha[j].x || alpha[m].x >= alpha[j + 1].x
  {
    if m < j { assert Before(alpha[m], alpha[j]); }
    else if m > j + 1 { assert Before(alpha[j + 1], alpha[m]); }
  }

  /** g * x = d with x > 0 and x * a0 < d < x * a1 puts g strictly between
      a0 and a1. */
  lemma BetweenByProduct(x: real, g: real, a0: real, a1: real, d: real)
    requires x > 0.0 && g * x == d && x * a0 < d < x * a1
    ensures a0 < g < a1
  {
    if g <= a0 { MulLeq(g, a0, x); }
    if g >= a1 { MulLeq(a1, g, x); }
  }

  /** Neither alpha * x - c crosses 0 nor 1 between a0 and a1. */
  predicate NoCrossing(x: real, a0: real, a1: real, c: real)
  {
    !(x * a0 - c < 0.0 < x * a1 - c) && !(x * a0 - c < 1.0 < x * a1 - c)
  }

  /** Without a crossing, theta is affine in alpha on [a0, a1]: with
      d = a1 - a0, p = a1 - a and q = a - a0, theta(a) * d is
      theta(a0) * p + theta(a1) * q. */
  lemma ThetaAffine(x: real, a0: real, a1: real, a: real, weights: real, extraFactor: real, d: real, p: real, q: real)
    requires x >= 0.0 && a0 < a1 && a0 <= a <= a1
    requires d == a1 - a0 && p == a1 - a && q == a - a0
    requires NoCrossing(x, a0, a1, 2.0 * weights * extraFactor)
    ensures Theta(x, a, weights, extraFactor) * d
      == Theta(x, a0, weights, extraFactor) * p + Theta(x, a1, weights, extraFactor) * q
  {
    var c := 2.0 * weights * extraFactor;
    var v0, v, v1 := x * a0 - c, x * a - c, x * a1 - c;
    AffineOrder(x, a0, a, c, v0, v);
    AffineOrder(x, a, a1, c, v, v1);
    ThetaClamped(x, a0, weights, extraFactor, v0);
    ThetaClamped(x, a, weights, extraFactor, v);
    ThetaClamped(x, a1, weights, extraFactor, v1);
    AffineInterpolation(x, c, a0, a1, a, d, p, q, v0, v, v1);
    ClampedAffine(v0, v, v1, Theta(x, a0, weights, extraFactor), Theta(x, a, weights, extraFactor),
      Theta(x, a1, weights, extraFactor), d, p, q);
  }

  /** t is theta's clamp of the affine value v to [0, 1]. */
  predicate Clamped(v: real, t: real)
  {
    (v > 1.0 ==> t == 1.0) && (v < 0.0 ==> t == 0.0) && (0.0 <= v <= 1.0 ==> t == v)
  }

  /** Clamping keeps an affine relation between three values that stay on
      one side of 0 and of 1. */
  lemma ClampedAffine(v0: real, v: real, v1: real, t0: real, t: real, t1: real, d: real, p: real, q: real)
    requires v0 <= v <= v1 && d == p + q
    requires v * d == v0 * p + v1 * q
    requires !(v0 < 0.0 < v1) && !(v0 < 1.0 < v1)
    requires Clamped(v0, t0) && Clamped(v, t) && Clamped(v1, t1)
    ensures t * d == t0 * p + t1 * q
  {
    if v1 <= 0.0 {
      assert t0 == 0.0 && t == 0.0 && t1 == 0.0;
    } else if v0 >= 1.0 {
      assert t0 == 1.0 && t == 1.0 && t1 == 1.0;
    } else {
      assert t0 == v0 && t == v && t1 == v1;
    }
  }

  lemma AffineInterpolation(x: real, c: real, a0: real, a1: real, a: real, d: real, p: real, q: real, v0: real, v: real, v1: real)
    requires d == a1 - a0 && p == a1 - a && q == a - a0
    requires v0 == x * a0 - c && v == x * a - c && v1 == x * a1 - c
    ensures v * d == v0 * p + v1 * q
  {
  }

  lemma ThetaSumCons(w: seq<real>, a: real, weights: real, extraFactor: real)
    requires w != []
    ensures ThetaSum(w, a, weights, extraFactor) == Theta(Abs(w[0]), a, weights, extraFactor) + ThetaSum(w[1..], a, weights, extraFactor)
  {
    assert ComputeTheta(w, a, weights, extraFactor)[1..] == ComputeTheta(w[1..], a, weights, extraFactor);
  }

  /** Without a crossing in any entry, the theta sum is affine on [a0, a1]. */
  lemma ThetaSumAffine(w: seq<real>, a0: real, a1: real, a: real, weights: real, extraFactor: real, d: real, p: real, q: real)
    requires a0 < a1 && a0 <= a <= a1
    requires d == a1 - a0 && p == a1 - a && q == a - a0
    requires forall i :: 0 <= i < |w| ==> NoCrossing(Abs(w[i]), a0, a1, 2.0 * weights * extraFactor)
    ensures OnLine(ThetaSum(w, a, weights, extraFactor), ThetaSum(w, a0, weights, extraFactor), ThetaSum(w, a1, weights, extraFactor), d, p, q)
  {
    ThetaEntriesAffine(w, a0, a1, a, weights, extraFactor, d, p, q);
    SumAffine(ComputeTheta(w, a, weights, extraFactor), ComputeTheta(w, a0, weights, extraFactor),
      ComputeTheta(w, a1, weights, extraFactor), d, p, q, ThetaSum(w, a, weights, extraFactor),
      ThetaSum(w, a0, weights, extraFactor), ThetaSum(w, a1, weights, extraFactor));
  }

  /** s[i] * d == s0[i] * p + s1[i] * q at every index. */
  predicate EntriesAffine(s: seq<real>, s0: seq<real>, s1: seq<real>, d: real, p: real, q: real)
  {
    |s| == |s0| == |s1| && forall i :: 0 <= i < |s| ==> s[i] * d == s0[i] * p + s1[i] * q
  }

  /** Entry by entry, theta is affine on [a0, a1]. */
  lemma ThetaEntriesAffine(w: seq<real>, a0: real, a1: real, a: real, weights: real, extraFactor: real, d: real, p: real, q: real)
    requires a0 < a1 && a0 <= a <= a1
    requires d == a1 - a0 && p == a1 - a && q == a - a0
    requires forall i :: 0 <= i < |w| ==> NoCrossing(Abs(w[i]), a0, a1, 2.0 * weights * extraFactor)
    ensures EntriesAffine(ComputeTheta(w, a, weights, extraFactor), ComputeTheta(w, a0, weights, extraFactor),
      ComputeTheta(w, a1, weights, extraFactor), d, p, q)
  {
    forall i | 0 <= i < |w|
      ensures ComputeTheta(w, a, weights, extraFactor)[i] * d
        == ComputeTheta(w, a0, weights, extraFactor)[i] * p + ComputeTheta(w, a1, weights, extraFactor)[i] * q
    {
      ThetaEntryAffine(w, i, a0, a1, a, weights, extraFactor, d, p, q);
    }
  }

  lemma ThetaEntryAffine(w: seq<real>, i: int, a0: real, a1: real, a: real, weights: real, extraFactor: real, d: real, p: real, q: real)
    requires 0 <= i < |w| && a0 < a1 && a0 <= a <= a1
    requires d == a1 - a0 && p == a1 - a && q == a - a0
    requires NoCrossing(Abs(w[i]), a0, a1, 2.0 * weights * extraFactor)
    ensures ComputeTheta(w, a, weights, extraFactor)[i] * d
      == ComputeTheta(w, a0, weights, extraFactor)[i] * p + ComputeTheta(w, a1, weights, extraFactor)[i] * q
  {
    var x := Abs(w[i]);
    ThetaAffine(x, a0, a1, a, weights, extraFactor, d, p, q);
    assert ComputeTheta(w, a, weights, extraFactor)[i] == Theta(x, a, weights, extraFactor);
    assert ComputeTheta(w, a0, weights, extraFactor)[i] == Theta(x, a0, weights, extraFactor);
    assert ComputeTheta(w, a1, weights, extraFactor)[i] == Theta(x, a1, weights, extraFactor);
  }

  /** An affine relation that holds entry by entry holds for the sums
      (named t, t0, t1 here). */
  lemma {:induction false} SumAffine(s: seq<real>, s0: seq<real>, s1: seq<real>, d: real, p: real, q: real, t: real, t0: real, t1: real)
    requires EntriesAffine(s, s0, s1, d, p, q)
    requires t == Sum(s) && t0 == Sum(s0) && t1 == Sum(s1)
    ensures OnLine(t, t0, t1, d, p, q)
  {
    if s != [] {
      EntriesAffineTail(s, s0, s1, d, p, q);
      var u, u0, u1 := Sum(s[1..]), Sum(s0[1..]), Sum(s1[1..]);
      SumAffine(s[1..], s0[1..], s1[1..], d, p, q, u, u0, u1);
      AddAffine(t, t0, t1, s[0], s0[0], s1[0], u, u0, u1, d, p, q);
    }
  }

  lemma EntriesAffineTail(s: seq<real>, s0: seq<real>, s1: seq<real>, d: real, p: real, q: real)
    requires EntriesAffine(s, s0, s1, d, p, q) && s != []
    ensures s[0] * d == s0[0] * p + s1[0] * q
    ensures EntriesAffine(s[1..], s0[1..], s1[1..], d, p, q)
  {
    assert forall i :: 0 <= i < |s| - 1 ==> s[1..][i] == s[i + 1] && s0[1..][i] == s0[i + 1] && s1[1..][i] == s1[i + 1];
  }

  /** t * d == t0 * p + t1 * q: with d = a1 - a0, p = a1 - a and q = a - a0,
      the point (a, t) is on the line through (a0, t0) and (a1, t1). */
  predicate OnLine(t: real, t0: real, t1: real, d: real, p: real, q: real)
  {
    t * d == t0 * p + t1 * q
  }

  /** Two affine relations with the same coefficients add up. */
  lemma AddAffine(s: real, s0: real, s1: real, t: real, t0: real, t1: real, u: real, u0: real, u1: real, d: real, p: real, q: real)
    requires s == t + u && s0 == t0 + u0 && s1 == t1 + u1
    requires t * d == t0 * p + t1 * q && u * d == u0 * p + u1 * q
    ensures s * d == s0 * p + s1 * q
  {
  }


  /** For neighbouring grid values whose sums bracket k, the interpolation
      lands on a point whose theta sum is k. */
  lemma InterpolationReachesK(w: seq<real>, a0: real, a1: real, k: real, weights: real, extraFactor: real)
    requires a0 < a1
    requires forall i :: 0 <= i < |w| ==> NoCrossing(Abs(w[i]), a0, a1, 2.0 * weights * extraFactor)
    requires ThetaSum(w, a0, weights, extraFactor) <= k <= ThetaSum(w, a1, weights, extraFactor)
    ensures var s0, s1 := ThetaSum(w, a0, weights, extraFactor), ThetaSum(w, a1, weights, extraFactor);
      Interpolate(k, a0, a1, s0, s1).Some? && ThetaSum(w, Interpolate(k, a0, a1, s0, s1).value, weights, extraFactor) == k
  {
    var s0, s1 := ThetaSum(w, a0, weights, extraFactor), ThetaSum(w, a1, weights, extraFactor);
    if s0 != k && s1 != k {
      InterpolateBetween(k, a0, a1, s0, s1);
      var r := Interpolate(k, a0, a1, s0, s1).value;
      var d, p, q := a1 - a0, a1 - r, r - a0;
      ThetaSumAffine(w, a0, a1, r, weights, extraFactor, d, p, q);
      LineValue(s0, s1, a0, a1, r, k, ThetaSum(w, r, weights, extraFactor), d, p, q);
    }
  }

  /** A value on the line through (a0, s0) and (a1, s1) equals k where that
      line reaches k. */
  lemma LineValue(s0: real, s1: real, a0: real, a1: real, r: real, k: real, t: real, d: real, p: real, q: real)
    requires a0 < a1 && d == a1 - a0 && p == a1 - r && q == r - a0
    requires s0 + (s1 - s0) / (a1 - a0) * (r - a0) == k
    requires OnLine(t, s0, s1, d, p, q)
    ensures t == k
  {
    var slope := (s1 - s0) / d;
    assert slope * d == s1 - s0;
    var e := r - a0;
    assert k * d == s0 * d + (slope * e) * d;
    assert (slope * e) * d == (slope * d) * e;
    assert t * d == s0 * d + (s1 - s0) * e;
    assert t * d == k * d;
    if t < k { MulLt(t, k, d); }
    if t > k { MulLt(k, t, d); }
  }

  /** The last step of op: x_i * theta_i / (theta_i + 2 * weights * extra),
      with theta taken at extra_factor 1 as the source calls it. A
      non-finite alpha* makes every theta, and so every entry, nan. With a
      finite alpha* an entry is finite exactly when its denominator is not
      0 (0 gives inf, or nan for 0 / 0); for non-negative weights and extra
      factor every finite entry keeps its sign and does not grow. */
  function Shrink(data: seq<real>, alphaStar: Float, weights: real, extraFactor: real): (r: seq<Float>)
    ensures |r| == |data|
    ensures !alphaStar.Fin? ==> forall i :: 0 <= i < |data| ==> r[i].NaN?
    ensures alphaStar.Fin? ==> forall i :: 0 <= i < |data| ==>
      (r[i].Fin? <==> Theta(Abs(data[i]), alphaStar.x, weights, 1.0) + weights * 2.0 * extraFactor != 0.0)
    ensures alphaStar.Fin? && weights * extraFactor >= 0.0 ==> forall i :: 0 <= i < |data| && r[i].Fin? ==>
      Abs(r[i].x) <= Abs(data[i]) && SignOf(r[i].x, data[i])
  {
    if !alphaStar.Fin? then seq(|data|, _ => NaN)
    else
      var theta := ComputeTheta(Magnitudes(data), alphaStar.x, weights, 1.0);
      var c := weights * 2.0 * extraFactor;
      assert c == 2.0 * (weights * extraFactor);
      ShrinkValues(data, theta, c)
  }

  /** x_i * theta_i / (theta_i + c) for every entry, numpy's inf or nan
      where the denominator is 0. */
  function ShrinkValues(data: seq<real>, theta: seq<real>, c: real): (out: seq<Float>)
    requires |theta| == |data|
    requires forall i :: 0 <= i < |data| ==> 0.0 <= theta[i] <= 1.0
    ensures |out| == |data|
    ensures forall i :: 0 <= i < |data| ==> (out[i].Fin? <==> theta[i] + c != 0.0)
    ensures c >= 0.0 ==> forall i :: 0 <= i < |data| && out[i].Fin? ==>
      Abs(out[i].x) <= Abs(data[i]) && SignOf(out[i].x, data[i])
  {
    var out := seq(|data|, i requires 0 <= i < |data| => ShrinkOne(data[i], theta[i], c));
    ShrinkAll(data, theta, c, out);
    out
  }

  lemma ShrinkAll(data: seq<real>, theta: seq<real>, c: real, out: seq<Float>)
    requires |theta| == |data| == |out|
    requires forall i :: 0 <= i < |data| ==> 0.0 <= theta[i] <= 1.0
    requires forall i :: 0 <= i < |data| ==> out[i] == ShrinkOne(data[i], theta[i], c)
    ensures c >= 0.0 ==> forall i :: 0 <= i < |data| && out[i].Fin? ==>
      Abs(out[i].x) <= Abs(data[i]) && SignOf(out[i].x, data[i])
  {
    if c >= 0.0 {
      forall i | 0 <= i < |data| && out[i].Fin? ensures Abs(out[i].x) <= Abs(data[i]) && SignOf(out[i].x, data[i]) {
        assert out[i] == Fin(data[i] * theta[i] / (theta[i] + c));
        ShrinkEntry(data[i], theta[i], c, out[i].x);
      }
    }
  }

  /** x * t / (t + c), inf or nan where t + c is 0. */
  function ShrinkOne(x: real, t: real, c: real): (r: Float)
    ensures r.Fin? <==> t + c != 0.0
    ensures r.Fin? ==> r.x * (t + c) == x * t
  {
    if t + c != 0.0 then Fin(x * t / (t + c)) else Divide(x * t, 0.0)
  }

  /** x * t / (t + c) for t in [0,1] and c >= 0 is x times a fraction in
      [0,1]. */
  lemma ShrinkEntry(x: real, t: real, c: real, y: real)
    requires 0.0 <= t <= 1.0 && c >= 0.0 && t + c != 0.0 && y == x * t / (t + c)
    ensures Abs(y) <= Abs(x) && SignOf(y, x)
  {
    var d := t + c;
    var f := t / d;
    DivAssoc(x, t, d);
    DivAtMostOne(t, d);
    if f < 0.0 { MulLt(f, 0.0, d); DivCancel(t, d); }
    ScaleByFraction(x, f);
    if x > 0.0 { MulNonNeg(x, f); }
    else if x < 0.0 { MulNonNeg(-x, f); }
  }

  lemma DivAssoc(x: real, t: real, d: real)
    requires d != 0.0
    ensures x * t / d == x * (t / d)
  {
  }

  /** np.abs */
  function Magnitudes(data: seq<real>): (m: seq<real>)
    ensures |m| == |data| && forall i :: 0 <= i < |data| ==> m[i] == Abs(data[i])
  {
    seq(|data|, i requires 0 <= i < |data| => Abs(data[i]))
  }

  /** a is what _find_alpha returns on w for some outcome of the search,
      and is a finite alpha* with sum(theta(alpha*)) = k whenever that
      outcome's pair brackets k. */
  ghost predicate AlphaStarOf(w: seq<real>, k: int, weights: real, extraFactor: real, a: Result<Float, Error>)
  {
    exists s: Search, steps: nat :: FindAlphaOutcome(w, k, weights, extraFactor, a, s, steps)
  }

  /** One search outcome is a witness for AlphaStarOf. */
  lemma OutcomeWitness(w: seq<real>, k: int, weights: real, extraFactor: real, a: Result<Float, Error>, s: Search, steps: nat)
    requires FindAlphaOutcome(w, k, weights, extraFactor, a, s, steps)
    ensures AlphaStarOf(w, k, weights, extraFactor, a)
  {
  }

  /** a is what _find_alpha returns on w for the search outcome s, steps. */
  predicate FindAlphaOutcome(w: seq<real>, k: int, weights: real, extraFactor: real, a: Result<Float, Error>, s: Search, steps: nat)
  {
    && SearchOutcome(w, Alpha(w, weights, extraFactor), k as real, weights, extraFactor, s, steps)
    && a == AlphaStar(k as real, s)
    && (Brackets(s, k as real) ==> a.Ok? && a.value.Fin? && ThetaSum(w, a.value.x, weights, extraFactor) == k as real)
  }

  /** k_support_norm.op on the flattened data (the reshape back keeps every
      entry in place): alpha* from _find_alpha, then the shrink by theta.
      Returns alpha* (or the error _find_alpha raises) beside the result. */
  method Op(o: KSupportNorm, data: seq<real>, extraFactor: real)
    returns (r: Result<seq<Float>, Error>, alphaStar: Result<Float, Error>)
    ensures AlphaStarOf(Magnitudes(data), o.k, o.weights, extraFactor, alphaStar)
    ensures r.Ok? <==> alphaStar.Ok?
    ensures r.Ok? ==> r.value == Shrink(data, alphaStar.value, o.weights, extraFactor)
    ensures r.Err? ==> r.error == alphaStar.error
  {
    var w := Magnitudes(data);
    var search, steps;
    alphaStar, search, steps := FindAlpha(w, o.k, o.weights, extraFactor);
    OutcomeWitness(w, o.k, o.weights, extraFactor, alphaStar, search, steps);
    if alphaStar.Err? {
      return Err(alphaStar.error), alphaStar;
    }
    r := Ok(Shrink(data, alphaStar.value, o.weights, extraFactor));
  }

  /** sum / k >= x, with numpy's float division: for k = 0 the quotient is
      +inf (true), -inf (false) or nan (false). */
  predicate QuotientAtLeast(sum: real, k: int, x: real)
  {
    if k == 0 then sum > 0.0 else sum / (k as real) >= x
  }

  /** The two particular cases of _find_q and the starting midpoint
      (k - 1) // 2 otherwise. */
  function FindQStart(sorted: seq<real>, k: int): (r: Result<int, Error>)
    ensures r.Ok? ==> r.value == 0 || r.value == k - 1 || r.value == (k - 1) / 2
    ensures |sorted| == 0 ==> r == Err(IndexError)
  {
    if |sorted| == 0 then Err(IndexError)
    else if QuotientAtLeast(Sum(sorted), k, sorted[0]) then Ok(0)
    else match PyIndex(sorted, k - 1)
      case None => Err(IndexError)
      case Some(x) => if Sum(PySliceFrom(sorted, k - 1)) <= x then Ok(k - 1) else Ok((k - 1) / 2)
  }

  /** _find_q. Its search loop needs cnt == k while cnt starts at 0, so it
      could only run for k == 0, and then last_idx = -1 < first_idx = 0
      stops it as well: for every k, q is the value of the particular cases
      or (k - 1) // 2. */
  method FindQ(sorted: seq<real>, k: int) returns (r: Result<int, Error>)
    ensures r == FindQStart(sorted, k)
  {
    var firstIdx := 0;
    var lastIdx := k - 1;
    var found := false;
    var q := (firstIdx + lastIdx) / 2;
    var cnt := 0;

    if |sorted| == 0 { return Err(IndexError); }
    if QuotientAtLeast(Sum(sorted), k, sorted[0]) {
      found := true;
      q := 0;
    } else {
      var last := PyIndex(sorted, k - 1);
      if last.None? { return Err(IndexError); }
      if Sum(PySliceFrom(sorted, k - 1)) <= last.value {
        found := true;
        q := k - 1;
      }
    }
    ghost var q0, found0 := q, found;
    var failed := false;  // an IndexError raised inside the loop

    while !found && cnt == k && firstIdx <= lastIdx && lastIdx < k
      invariant cnt == 0 || (cnt == 1 && k == 0 && !found0)
      invariant cnt == 0 ==> q == q0 && found == found0
      invariant !failed
      decreases 1 - cnt
    {
      q := (firstIdx + lastIdx) / 2;
      cnt := cnt + 1;
      var l1Part := Sum(PySliceFrom(sorted, q)) / ((k - q) as real);
      var atQ := PyIndex(sorted, q);
      if atQ.None? { failed := true; break; }
      if atQ.value >= l1Part {
        var atNext := PyIndex(sorted, q + 1);
        if atNext.None? { failed := true; break; }
        if l1Part >= atNext.value {
          found := true;
          continue;
        }
      }
      if atQ.value <= l1Part {
        lastIdx := q;
      }
      var atNext := PyIndex(sorted, q + 1);
      if atNext.None? { failed := true; break; }
      if l1Part <= atNext.value {
        firstIdx := q;
      }
    }
    if cnt != 0 {
      // For k = 0 the second particular case reads sorted[-1:], whose sum
      // is sorted[-1]: found is already set and the loop never ran.
      LastSliceSum(sorted);
      assert false;
    }
    return if failed then Err(IndexError) else Ok(q);
  }

  /** sorted[-1:].sum() is sorted[-1]. */
  lemma LastSliceSum(s: seq<real>)
    requires |s| > 0
    ensures PyIndex(s, -1) == Some(s[|s| - 1]) && Sum(PySliceFrom(s, -1)) == s[|s| - 1]
  {
    assert PySliceFrom(s, -1) == [s[|s| - 1]];
  }
}
