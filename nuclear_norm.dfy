/** NuclearNorm: the patch-based low-rank proximity operator. Each patch is a
    (pixels x channels) matrix; its singular values are soft-thresholded and
    the patch is rebuilt from the same singular vectors. The singular value
    decomposition itself (np.linalg.svd) is computed outside the model and
    given with each patch; extracting the patches from the image and
    reassembling them (extract_patches_2d, reconstruct_*_patches_2d), and the
    sparse mode's unflatten/flatten through the linear operator, are outside
    it too. */
module NuclearNorm {
  import opened Wrappers
  import opened Numeric

  type Matrix = seq<seq<real>>

  datatype Mode = Image | Sparse

  datatype Config = Config(
    weights: real,
    patchShape: seq<nat>,
    overlappingFactor: int,
    numCores: int,
    mode: Mode,
    hasLinearOp: bool)

  datatype Error =
    | InvalidMode            // mode is neither "image" nor "sparse"
    | MissingLinearOp        // "sparse" mode without a linear operator
    | MissingMethod          // get_cost's parallel branches

  /** The constructor: it rejects an unknown mode first, then the sparse mode
      without a linear operator. */
  function New(weights: real, patchShape: seq<nat>, overlappingFactor: int, numCores: int,
               mode: string, hasLinearOp: bool): (r: Result<Config, Error>)
    ensures r == Err(InvalidMode) <==> mode != "image" && mode != "sparse"
    ensures r == Err(MissingLinearOp) <==> mode == "sparse" && !hasLinearOp
    ensures r.Ok? <==> mode == "image" || (mode == "sparse" && hasLinearOp)
    ensures r.Ok? ==> r.value.mode == (if mode == "image" then Image else Sparse)
    ensures r.Ok? ==> r.value == Config(weights, patchShape, overlappingFactor, numCores, r.value.mode, hasLinearOp)
  {
    if mode != "image" && mode != "sparse" then Err(InvalidMode)
    else if mode == "sparse" && !hasLinearOp then Err(MissingLinearOp)
    else Ok(Config(weights, patchShape, overlappingFactor, numCores,
                   if mode == "image" then Image else Sparse, hasLinearOp))
  }

  /** A decomposition u * diag(s) * vh of a patch, as np.linalg.svd returns
      it with full_matrices=False. */
  datatype Svd = Svd(u: Matrix, s: seq<real>, vh: Matrix)

  /** Entry (i, j) of u * diag(s) * vh, summing over the first k values. */
  function ComposeEntry(d: Svd, m: nat, n: nat, i: nat, j: nat, k: nat): real
    requires WellShaped(d, m, n) && i < m && j < n && k <= |d.s|
  {
    if k == 0 then 0.0
    else ComposeEntry(d, m, n, i, j, k - 1) + d.u[i][k - 1] * d.s[k - 1] * d.vh[k - 1][j]
  }

  /** The shapes fit: u is m x r, s has r values, vh is r x n. */
  predicate WellShaped(d: Svd, m: nat, n: nat)
  {
    && IsMatrix(d.u, m, |d.s|)
    && IsMatrix(d.vh, |d.s|, n)
  }

  /** The matrix u * diag(s) * vh. */
  function Compose(d: Svd, m: nat, n: nat): (r: Matrix)
    requires WellShaped(d, m, n)
    ensures IsMatrix(r, m, n)
  {
    seq(m, i requires 0 <= i < m =>
      seq(n, j requires 0 <= j < n => ComposeEntry(d, m, n, i, j, |d.s|)))
  }

  /** Singular values: non-negative and in non-increasing order. */
  predicate SingularValues(s: seq<real>)
  {
    && (forall k :: 0 <= k < |s| ==> s[k] >= 0.0)
    && (forall k, q :: 0 <= k < q < |s| ==> s[k] >= s[q])
  }

  /** d is a singular value decomposition of the m x n patch. The
      orthonormality of the singular vectors is not part of this model. */
  predicate IsSvdOf(d: Svd, patch: Matrix, m: nat, n: nat)
  {
    && WellShaped(d, m, n)
    && SingularValues(d.s)
    && patch == Compose(d, m, n)
  }

  /** One shrunk singular value: s * max(1 - t / max(eps32, |s|), 0). */
  function ShrinkValue(s: real, t: real): real
  {
    s * ShrinkFactor(t, Abs(s), Eps32)
  }

  function Shrink(s: seq<real>, t: real): (r: seq<real>)
    ensures |r| == |s|
  {
    seq(|s|, k requires 0 <= k < |s| => ShrinkValue(s[k], t))
  }

  /** Each shrunk value is non-negative and at most the old one, and it is 0
      exactly when the old value is 0 or the threshold reaches
      max(eps32, s); above eps32 it is max(s - t, 0). */
  lemma ShrinkValueBounds(s: real, t: real)
    requires s >= 0.0 && t >= 0.0
    ensures 0.0 <= ShrinkValue(s, t) <= s
    ensures ShrinkValue(s, t) == 0.0 <==> s == 0.0 || t >= Max(Eps32, s)
    ensures s >= Eps32 ==> ShrinkValue(s, t) == Max(s - t, 0.0)
    ensures t == 0.0 ==> ShrinkValue(s, t) == s
  {
    var f := ShrinkFactor(t, Abs(s), Eps32);
    ShrinkFactorBounds(t, Abs(s), Eps32);
    ScaleByFraction(s, f);
    MulNonNeg(s, f);
    if s >= Eps32 {
      ShrinkFactorTimesMagnitude(t, s, Eps32);
    }
  }

  /** The shrinkage is monotone: a larger singular value stays at least as
      large, so the shrunk values are again in non-increasing order. */
  lemma ShrinkValueMonotone(a: real, b: real, t: real)
    requires a >= b >= 0.0 && t >= 0.0
    ensures ShrinkValue(a, t) >= ShrinkValue(b, t)
  {
    var fa, fb := ShrinkFactor(t, a, Eps32), ShrinkFactor(t, b, Eps32);
    assert Abs(a) == a && Abs(b) == b;
    FactorMonotone(t, a, b);
    ShrinkFactorBounds(t, b, Eps32);
    MulMonotone(b, a, fb, fa);
  }

  lemma FactorMonotone(t: real, a: real, b: real)
    requires a >= b >= 0.0 && t >= 0.0
    ensures ShrinkFactor(t, a, Eps32) >= ShrinkFactor(t, b, Eps32)
  {
    var da, db := Max(Eps32, a), Max(Eps32, b);
    assert da >= db > 0.0;
    DivAntitone(t, da, db);
  }

  lemma DivAntitone(t: real, a: real, b: real)
    requires a >= b > 0.0 && t >= 0.0
    ensures t / a <= t / b
  {
    var qa, qb := t / a, t / b;
    assert qa * a == t && qb * b == t;
    if qa > qb {
      MulLt(qb, qa, b);
      MulLeq(b, a, qa);
    }
  }

  lemma ShrinkKeepsSingularValues(s: seq<real>, t: real)
    requires SingularValues(s) && t >= 0.0
    ensures SingularValues(Shrink(s, t))
    ensures forall k :: 0 <= k < |s| ==> Shrink(s, t)[k] <= s[k]
  {
    forall k | 0 <= k < |s| ensures 0.0 <= Shrink(s, t)[k] <= s[k] {
      ShrinkValueBounds(s[k], t);
    }
    forall k, q | 0 <= k < q < |s| ensures Shrink(s, t)[k] >= Shrink(s, t)[q] {
      ShrinkValueMonotone(s[k], s[q], t);
    }
  }

  /** _prox_nuclear_norm: rebuild the patch from the same singular vectors
      and the shrunk singular values. */
  function ProxPatch(patch: Matrix, m: nat, n: nat, t: real, d: Svd): (r: Matrix)
    requires IsSvdOf(d, patch, m, n)
    ensures IsMatrix(r, m, n)
  {
    Compose(Svd(d.u, Shrink(d.s, t), d.vh), m, n)
  }

  /** For a non-negative threshold the result has a singular value
      decomposition with the same singular vectors whose values are the old
      ones shrunk (each non-negative, no larger, in order), and the shrunk
      values sum to at most the old ones. That sum is the nuclear norm only
      for orthonormal u and vh, which IsSvdOf does not state. */
  lemma ProxPatchShrinks(patch: Matrix, m: nat, n: nat, t: real, d: Svd)
    requires IsSvdOf(d, patch, m, n) && t >= 0.0
    ensures IsSvdOf(Svd(d.u, Shrink(d.s, t), d.vh), ProxPatch(patch, m, n, t, d), m, n)
    ensures Sum(Shrink(d.s, t)) <= Sum(d.s)
  {
    ShrinkKeepsSingularValues(d.s, t);
    SumPointwiseLeq(Shrink(d.s, t), d.s);
  }

  lemma {:induction false} SumPointwiseLeq(a: seq<real>, b: seq<real>)
    requires |a| == |b| && forall k :: 0 <= k < |a| ==> a[k] <= b[k]
    ensures Sum(a) <= Sum(b)
  {
    if a != [] { SumPointwiseLeq(a[1..], b[1..]); }
  }

  /** With a zero threshold the patch comes back unchanged. */
  lemma ProxPatchZeroThreshold(patch: Matrix, m: nat, n: nat, d: Svd)
    requires IsSvdOf(d, patch, m, n)
    ensures ProxPatch(patch, m, n, 0.0, d) == patch
  {
    forall k | 0 <= k < |d.s| ensures Shrink(d.s, 0.0)[k] == d.s[k] {
      ShrinkValueBounds(d.s[k], 0.0);
    }
    assert Shrink(d.s, 0.0) == d.s;
  }

  /** The branch op and get_cost take. */
  datatype Path = SinglePatch | NonOverlapping | Overlapping | SparseCoefficients

  /** op's dispatch: the sparse mode works on coefficients; in image mode
      data whose trailing shape is the patch shape is one patch, otherwise
      the overlapping factor chooses the reconstruction. */
  function OpPath(c: Config, dataTail: seq<nat>): (p: Path)
    ensures p == SparseCoefficients <==> c.mode == Sparse
    ensures p == SinglePatch <==> c.mode == Image && dataTail == c.patchShape
    ensures p == NonOverlapping <==> c.mode == Image && dataTail != c.patchShape && c.overlappingFactor == 1
    ensures p == Overlapping <==> c.mode == Image && dataTail != c.patchShape && c.overlappingFactor != 1
  {
    match c.mode
    case Image =>
      if dataTail == c.patchShape then SinglePatch
      else if c.overlappingFactor == 1 then NonOverlapping
      else Overlapping
    case Sparse => SparseCoefficients
  }

  /** The patch loop of op (num_cores == 1): every patch is replaced in
      place by its proximal image; the joblib branch computes the same
      values. */
  method ProxPatches(patches: array<Matrix>, m: nat, n: nat, t: real, svds: seq<Svd>)
    requires |svds| == patches.Length
    requires forall idx :: 0 <= idx < patches.Length ==> IsSvdOf(svds[idx], patches[idx], m, n)
    modifies patches
    ensures forall idx :: 0 <= idx < patches.Length ==>
      patches[idx] == ProxPatch(old(patches[idx]), m, n, t, svds[idx])
  {
    for idx := 0 to patches.Length
      invariant forall q :: 0 <= q < idx ==> patches[q] == ProxPatch(old(patches[q]), m, n, t, svds[q])
      invariant forall q :: idx <= q < patches.Length ==> patches[q] == old(patches[q])
    {
      patches[idx] := ProxPatch(patches[idx], m, n, t, svds[idx]);
    }
  }

  /** NuclearNorm.op on the patches the chosen path extracts: the threshold
      is weights * extra_factor and every patch is shrunk. */
  method Op(c: Config, dataTail: seq<nat>, extraFactor: real, patches: array<Matrix>, m: nat, n: nat, svds: seq<Svd>)
    returns (p: Path)
    requires |svds| == patches.Length
    requires forall idx :: 0 <= idx < patches.Length ==> IsSvdOf(svds[idx], patches[idx], m, n)
    modifies patches
    ensures p == OpPath(c, dataTail)
    ensures forall idx :: 0 <= idx < patches.Length ==>
      patches[idx] == ProxPatch(old(patches[idx]), m, n, c.weights * extraFactor, svds[idx])
  {
    p := OpPath(c, dataTail);
    ProxPatches(patches, m, n, c.weights * extraFactor, svds);
  }

  /** _nuclear_norm_cost: the sum of the absolute singular values. It is
      never negative, and on singular values it is their plain sum, the one
      ProxPatchShrinks bounds. */
  function PatchCost(d: Svd): (r: real)
    ensures r >= 0.0
    ensures SingularValues(d.s) ==> r == Sum(d.s)
  {
    SumAbsNonNegative(d.s);
    SumAbsOfNonNegative(d.s);
    SumAbs(d.s)
  }

  lemma {:induction false} SumAbsOfNonNegative(s: seq<real>)
    ensures (forall k :: 0 <= k < |s| ==> s[k] >= 0.0) ==> SumAbs(s) == Sum(s)
  {
    if s != [] { SumAbsOfNonNegative(s[1..]); }
  }

  function TotalCost(svds: seq<Svd>): real
  {
    if svds == [] then 0.0 else TotalCost(svds[..|svds| - 1]) + PatchCost(svds[|svds| - 1])
  }

  lemma {:induction false} TotalCostNonNegative(svds: seq<Svd>)
    ensures TotalCost(svds) >= 0.0
  {
    if svds != [] {
      TotalCostNonNegative(svds[..|svds| - 1]);
    }
  }

  /** NuclearNorm.get_cost: threshold times the sum of the patch nuclear
      norms, accumulated patch by patch. With num_cores != 1 both multi-patch
      paths fail, whatever the number of patches: one calls a method that does
      not exist, the other adds a list to a number. */
  method GetCost(c: Config, dataTail: seq<nat>, extraFactor: real, numCores: int, svds: seq<Svd>)
    returns (r: Result<real, Error>)
    ensures r.Err? <==> dataTail != c.patchShape && numCores != 1
    ensures r.Ok? ==> r.value == TotalCost(svds) * (c.weights * extraFactor)
    ensures r.Ok? && c.weights * extraFactor >= 0.0 ==> r.value >= 0.0
  {
    var threshold := c.weights * extraFactor;
    if dataTail != c.patchShape && numCores != 1 {
      return Err(MissingMethod);
    }
    var cost := 0.0;
    for idx := 0 to |svds|
      invariant cost == TotalCost(svds[..idx])
    {
      assert svds[..idx + 1][..idx] == svds[..idx];
      cost := cost + PatchCost(svds[idx]);
    }
    assert svds[..|svds|] == svds;
    TotalCostNonNegative(svds);
    if threshold >= 0.0 { MulNonNeg(cost, threshold); }
    r := Ok(cost * threshold);
  }
}
