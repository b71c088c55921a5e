/** The OWL (ordered weighted L1) proximity operator. The magnitudes are
    sorted in decreasing order, the sorted thresholds are subtracted, the
    result is projected onto the non-increasing, non-negative cone (sklearn's
    isotonic regression with y_min = 0, increasing = False), the sort is
    undone and the signs are put back.

    numpy's argsort and sklearn's pool-adjacent-violators step are not part
    of this model: they come in as the function parameters `argsort` and
    `pava`, and the requires clauses state what is known of them. The clip
    at y_min = 0, which sklearn applies after the pooling, is modelled. */
module Owl {
  import opened Wrappers
  import opened Numeric
  import opened Permutation
  import opened Layout

  datatype Error =
    | MissingDataShape    // OSCAR weights asked for without a data shape
    | UnknownMode         // OSCAR weights asked for in a mode op does not know
    | WrongShapeKind      // a data shape of the wrong kind for the mode
    | ShapeMismatch       // the thresholds do not broadcast against the data
    | NothingToUnsort     // one entry against an empty threshold array: data_abs[inv_x] reads an empty array
    | ZeroDimensional     // coeff_based on one channel: np.squeeze leaves a 0-d array
    | MissingBandShape    // band_based op on an object built without bands
    | BandOutOfRange      // a band runs past the last column: reshape fails
    | UnboundOutput       // op in an unknown mode never binds `output`
    | NotMultipliable     // a list of per-band weights times extra_factor

  /** The weights of an OWL object: a number, one array, or (band_based with
      OSCAR) one array per band. */
  datatype Weights = Scalar(w: real) | Vector(v: seq<real>) | PerBand(bands: seq<seq<real>>)

  /** weights * extra_factor; a Python list of arrays cannot be multiplied
      by a float, so PerBand has no product. */
  function Times(w: Weights, e: real): (r: Option<Weights>)
    ensures r.Some? <==> !w.PerBand?
  {
    match w
    case Scalar(x) => Some(Scalar(x * e))
    case Vector(v) => Some(Vector(seq(|v|, k requires 0 <= k < |v| => v[k] * e)))
    case PerBand(_) => None
  }

  /** The thresholds as numpy broadcasts them in `data_abs - threshold`
      against n sorted magnitudes: a number or a one-entry array is repeated
      n times, an array of length n is taken as it is, and an array of any
      length is taken as it is against a single magnitude (which numpy then
      repeats instead, see Spread). */
  function Broadcast(t: Weights, n: nat): (r: Option<seq<real>>)
    ensures r.Some? <==> t.Scalar? || (t.Vector? && (|t.v| == n || |t.v| == 1 || n == 1))
    ensures r.Some? && t.Vector? && n == 1 ==> r.value == t.v
    ensures r.Some? && !(t.Vector? && n == 1) ==> |r.value| == n
    ensures r.Some? && t.Vector? && |t.v| == n ==> r.value == t.v
    ensures r.Some? && t.Scalar? ==> forall k :: 0 <= k < n ==> r.value[k] == t.w
    ensures r.Some? && t.Vector? && |t.v| == 1 ==> forall k :: 0 <= k < |r.value| ==> r.value[k] == t.v[0]
  {
    match t
    case Scalar(x) => Some(seq(n, _ => x))
    case Vector(v) =>
      if |v| == n || n == 1 then Some(v)
      else if |v| == 1 then Some(seq(n, _ => v[0]))
      else None
    case PerBand(_) => None
  }

  /** Broadcast thresholds t that line up with n magnitudes: one per
      magnitude, or at least one against a single magnitude. */
  predicate Aligned(n: nat, t: seq<real>)
  {
    |t| == n || (n == 1 && |t| >= 1)
  }

  /** The sorted magnitudes at the broadcast length m: as they are, or a
      single magnitude repeated m times. */
  function Spread(sorted: seq<real>, m: nat): (r: seq<real>)
    requires |sorted| == m || (|sorted| == 1 && m >= 1)
    ensures |r| == m
    ensures |sorted| == m ==> r == sorted
    ensures |sorted| == 1 ==> forall k :: 0 <= k < m ==> r[k] == sorted[0]
  {
    if |sorted| == m then sorted else seq(m, _ => sorted[0])
  }

  /** np.abs */
  function Magnitudes(data: seq<real>): (r: seq<real>)
    ensures |r| == |data| && forall i :: 0 <= i < |data| ==> r[i] == Abs(data[i]) && r[i] >= 0.0
  {
    seq(|data|, i requires 0 <= i < |data| => Abs(data[i]))
  }

  /** The sign of x as np.sign gives it: 0 at 0. */
  function Sign(x: real): (r: real)
    ensures r == 1.0 || r == 0.0 || r == -1.0
    ensures r * Abs(x) == x
  {
    if x > 0.0 then 1.0 else if x < 0.0 then -1.0 else 0.0
  }

  /** y - t entry by entry. */
  function Sub(y: seq<real>, t: seq<real>): (r: seq<real>)
    requires |y| == |t|
    ensures |r| == |y| && forall k :: 0 <= k < |y| ==> r[k] == y[k] - t[k]
  {
    seq(|y|, k requires 0 <= k < |y| => y[k] - t[k])
  }

  /** The y_min = 0 clip of the isotonic regression. */
  function Clip0(y: seq<real>): (r: seq<real>)
    ensures |r| == |y| && forall k :: 0 <= k < |y| ==> r[k] == Max(y[k], 0.0) && r[k] >= 0.0
  {
    seq(|y|, k requires 0 <= k < |y| => Max(y[k], 0.0))
  }

  predicate NonIncreasing(y: seq<real>)
  {
    forall k :: 0 <= k < |y| - 1 ==> y[k] >= y[k + 1]
  }

  /** What is known of np.argsort: it returns an ascending argsort. */
  ghost predicate IsArgsortFn(argsort: seq<real> -> seq<int>)
  {
    forall a :: IsArgsort(a, argsort(a))
  }

  /** What is known of the pooling step: it returns as many values as it is
      given. */
  ghost predicate KeepsLength(pava: seq<real> -> seq<real>)
  {
    forall y :: |pava(y)| == |y|
  }

  /** ix = argsort(|data|)[::-1]: the positions in decreasing order of
      magnitude. */
  function DescendingIndex(mags: seq<real>, argsort: seq<real> -> seq<int>): (ix: seq<int>)
    requires IsArgsortFn(argsort)
    ensures IsDescendingOrder(mags, ix)
  {
    ReversedArgsortDescends(mags, argsort(mags));
    Reverse(argsort(mags))
  }

  /** The clipped isotonic regression of the sorted magnitudes minus the
      thresholds, still in sorted order. */
  function SortedShrunk(data: seq<real>, t: seq<real>, argsort: seq<real> -> seq<int>,
                        pava: seq<real> -> seq<real>): (s: seq<real>)
    requires IsArgsortFn(argsort) && KeepsLength(pava) && Aligned(|data|, t)
    ensures |s| == |t| && forall k :: 0 <= k < |s| ==> s[k] >= 0.0
  {
    var mags := Magnitudes(data);
    var ix := DescendingIndex(mags, argsort);
    Clip0(pava(Sub(Spread(Gather(mags, ix), |t|), t)))
  }

  /** The shrunk magnitudes back in the original order: data_abs[inv_x]. */
  function OwlMagnitudes(data: seq<real>, t: seq<real>, argsort: seq<real> -> seq<int>,
                         pava: seq<real> -> seq<real>): (m: seq<real>)
    requires IsArgsortFn(argsort) && KeepsLength(pava) && Aligned(|data|, t)
    ensures |m| == |data| && forall i :: 0 <= i < |m| ==> m[i] >= 0.0
  {
    Unsort(SortedShrunk(data, t, argsort, pava), DescendingIndex(Magnitudes(data), argsort), |data|)
  }

  /** s[inv_x] for the inverse inv_x of an order ix of n positions: the first
      n sorted values, each put back at its position. */
  function Unsort(s: seq<real>, ix: seq<int>, n: nat): (m: seq<real>)
    requires IsPermutation(ix, n) && n <= |s| && forall k :: 0 <= k < |s| ==> s[k] >= 0.0
    ensures |m| == n && forall i :: 0 <= i < n ==> m[i] >= 0.0
  {
    UnsortInRange(ix, n, |s|);
    Gather(s, Inverse(ix))
  }

  /** The thresholds broadcast against n magnitudes and leave a value to
      gather back for each of them. */
  predicate Fits(thr: Weights, n: nat)
  {
    Broadcast(thr, n).Some? && Aligned(n, Broadcast(thr, n).value)
  }

  /** inv_x indexes positions of the sorted order, all below its length n
      and so inside any result of length m >= n. */
  lemma UnsortInRange(ix: seq<int>, n: nat, m: nat)
    requires IsPermutation(ix, n) && n <= m
    ensures |Inverse(ix)| == n && forall k :: 0 <= k < n ==> 0 <= Inverse(ix)[k] < m
  {
    InverseOfPermutation(ix, n);
  }

  /** OWL._prox_owl with the sign taken as np.sign (see SignAsWritten for the
      quotient the source computes). It fails when the thresholds do not
      broadcast, and when a single entry meets an empty threshold array, so
      that inv_x indexes an empty result; otherwise it succeeds. A one-entry
      vector is processed too, since argsort of the 0-d array np.squeeze
      leaves is [0]. Every output entry keeps the sign of its input, is 0
      where the input is 0, and otherwise has the shrunk magnitude that
      OwlMagnitudes assigns to its position. */
  function ProxOwl(data: seq<real>, thr: Weights, argsort: seq<real> -> seq<int>,
                   pava: seq<real> -> seq<real>): (r: Result<seq<real>, Error>)
    requires IsArgsortFn(argsort) && KeepsLength(pava)
    ensures r.Ok? <==> Fits(thr, |data|)
    ensures Broadcast(thr, |data|).None? ==> r == Err(ShapeMismatch)
    ensures Broadcast(thr, |data|).Some? && !Fits(thr, |data|) ==> r == Err(NothingToUnsort)
    ensures r.Ok? ==> |r.value| == |data|
    ensures r.Ok? ==> forall i :: 0 <= i < |data| ==> SignOf(r.value[i], data[i])
    ensures r.Ok? ==> forall i :: 0 <= i < |data| && data[i] != 0.0 ==>
      Abs(r.value[i]) == OwlMagnitudes(data, Broadcast(thr, |data|).value, argsort, pava)[i]
  {
    var b := Broadcast(thr, |data|);
    if b.None? then Err(ShapeMismatch)
    else if !Aligned(|data|, b.value) then Err(NothingToUnsort)
    else
      var m := OwlMagnitudes(data, b.value, argsort, pava);
      Ok(ApplySigns(data, m))
  }

  /** One entry x against an array v of thresholds: numpy repeats |x| once
      per threshold, the projection runs on the differences |x| - v[k], and
      inv_x = [0] gathers back only the first projected value. An empty
      array leaves nothing to gather back. */
  lemma OneEntryAgainstArray(x: real, v: seq<real>, argsort: seq<real> -> seq<int>, pava: seq<real> -> seq<real>)
    requires IsArgsortFn(argsort) && KeepsLength(pava)
    ensures |v| == 0 ==> ProxOwl([x], Vector(v), argsort, pava) == Err(NothingToUnsort)
    ensures |v| >= 1 ==>
      ProxOwl([x], Vector(v), argsort, pava) ==
      Ok([Sign(x) * Max(pava(seq(|v|, k requires 0 <= k < |v| => Abs(x) - v[k]))[0], 0.0)])
  {
    if |v| >= 1 {
      var data := [x];
      ProxOwlValue(data, Vector(v), argsort, pava);
      var mags := Magnitudes(data);
      var ix := DescendingIndex(mags, argsort);
      assert ix == [0];
      var y := seq(|v|, k requires 0 <= k < |v| => Abs(x) - v[k]);
      assert Sub(Spread(Gather(mags, ix), |v|), v) == y;
      InverseOfPermutation(ix, 1);
      assert Inverse(ix) == [0];
      var shrunk := SortedShrunk(data, v, argsort, pava);
      assert shrunk == Clip0(pava(y));
      var m := OwlMagnitudes(data, v, argsort, pava);
      assert m == [shrunk[0]];
      assert ApplySigns(data, m) == [Sign(x) * Max(pava(y)[0], 0.0)];
    }
  }

  /** sign(data) * m, entry by entry, for magnitudes m >= 0. */
  function ApplySigns(data: seq<real>, m: seq<real>): (out: seq<real>)
    requires |m| == |data| && forall i :: 0 <= i < |m| ==> m[i] >= 0.0
    ensures |out| == |data| && forall i :: 0 <= i < |data| ==> out[i] == Sign(data[i]) * m[i]
    ensures forall i :: 0 <= i < |data| ==> SignOf(out[i], data[i])
    ensures forall i :: 0 <= i < |data| && data[i] != 0.0 ==> Abs(out[i]) == m[i]
  {
    var out := seq(|data|, i requires 0 <= i < |data| => Sign(data[i]) * m[i]);
    assert forall i :: 0 <= i < |data| ==> SignOf(out[i], data[i]) && (data[i] != 0.0 ==> Abs(out[i]) == m[i]) by {
      forall i | 0 <= i < |data|
        ensures SignOf(out[i], data[i])
        ensures data[i] != 0.0 ==> Abs(out[i]) == m[i]
      {
        SignedMagnitude(data[i], m[i]);
      }
    }
    out
  }

  lemma SignedMagnitude(x: real, m: real)
    requires m >= 0.0
    ensures SignOf(Sign(x) * m, x)
    ensures x != 0.0 ==> Abs(Sign(x) * m) == m
  {
  }

  /** Undoing the sort: gathering the sorted magnitudes by inv_x gives back
      |data| in its original order, and the value OwlMagnitudes assigns to
      position i is the one computed at the place where |data[i]| was
      sorted to. */
  lemma UnsortRestoresPositions(data: seq<real>, t: seq<real>, argsort: seq<real> -> seq<int>,
                                pava: seq<real> -> seq<real>, i: nat)
    requires IsArgsortFn(argsort) && KeepsLength(pava) && Aligned(|data|, t) && i < |data|
    ensures var mags := Magnitudes(data);
      var ix := DescendingIndex(mags, argsort);
      && Gather(Gather(mags, ix), Inverse(ix)) == mags
      && 0 <= Inverse(ix)[i] < |data|
      && ix[Inverse(ix)[i]] == i
      && OwlMagnitudes(data, t, argsort, pava)[i] == SortedShrunk(data, t, argsort, pava)[Inverse(ix)[i]]
  {
    var mags := Magnitudes(data);
    var ix := DescendingIndex(mags, argsort);
    GatherRoundTrip(mags, ix);
    InverseOfPermutation(ix, |data|);
  }

  /** When the pooling step returns a non-increasing sequence, a strictly
      larger input magnitude never gets a smaller output magnitude: the
      operator keeps the order of the magnitudes. */
  lemma KeepsMagnitudeOrder(data: seq<real>, thr: Weights, argsort: seq<real> -> seq<int>,
                            pava: seq<real> -> seq<real>, i: nat, j: nat)
    requires IsArgsortFn(argsort) && KeepsLength(pava)
    requires forall y :: NonIncreasing(pava(y))
    requires ProxOwl(data, thr, argsort, pava).Ok?
    requires i < |data| && j < |data| && Abs(data[i]) > Abs(data[j])
    ensures Abs(ProxOwl(data, thr, argsort, pava).value[i]) >= Abs(ProxOwl(data, thr, argsort, pava).value[j])
  {
    var t := Broadcast(thr, |data|).value;
    var mags := Magnitudes(data);
    var ix := DescendingIndex(mags, argsort);
    var s := SortedShrunk(data, t, argsort, pava);
    var y := Sub(Spread(Gather(mags, ix), |t|), t);
    assert NonIncreasing(pava(y));
    ClipKeepsNonIncreasing(pava(y));
    DescendingPositions(mags, ix, i, j);
    InverseOfPermutation(ix, |data|);
    var ki, kj := Inverse(ix)[i], Inverse(ix)[j];
    NonIncreasingBetween(s, ki, kj);
    UnsortRestoresPositions(data, t, argsort, pava, i);
    UnsortRestoresPositions(data, t, argsort, pava, j);
  }

  lemma ClipKeepsNonIncreasing(y: seq<real>)
    requires NonIncreasing(y)
    ensures NonIncreasing(Clip0(y))
  {
  }

  lemma NonIncreasingBetween(s: seq<real>, j: nat, k: nat)
    requires NonIncreasing(s) && j <= k < |s|
    ensures s[j] >= s[k]
    decreases k - j
  {
    if j < k { NonIncreasingBetween(s, j + 1, k); }
  }

  /** With zero thresholds and a pooling step that leaves a non-increasing
      sequence alone, the operator gives back its input. */
  lemma ZeroThresholdIsIdentity(data: seq<real>, argsort: seq<real> -> seq<int>, pava: seq<real> -> seq<real>)
    requires IsArgsortFn(argsort) && KeepsLength(pava)
    requires forall y :: NonIncreasing(y) ==> pava(y) == y
    ensures ProxOwl(data, Scalar(0.0), argsort, pava) == Ok(data)
  {
    var t := Broadcast(Scalar(0.0), |data|).value;
    var mags := Magnitudes(data);
    var ix := DescendingIndex(mags, argsort);
    ZeroThresholdSorted(data, t, argsort, pava);
    GatherRoundTrip(mags, ix);
    ProxOwlValue(data, Scalar(0.0), argsort, pava);
    var m := OwlMagnitudes(data, t, argsort, pava);
    assert m == mags;
    var r := ApplySigns(data, m);
    forall i | 0 <= i < |data| ensures r[i] == data[i] {
      SignedMagnitude(data[i], mags[i]);
    }
    assert r == data;
  }

  /** With zero thresholds the sorted magnitudes are already non-increasing
      and non-negative, so the projection keeps them. */
  lemma ZeroThresholdSorted(data: seq<real>, t: seq<real>, argsort: seq<real> -> seq<int>, pava: seq<real> -> seq<real>)
    requires IsArgsortFn(argsort) && KeepsLength(pava)
    requires forall y :: NonIncreasing(y) ==> pava(y) == y
    requires |t| == |data| && forall k :: 0 <= k < |t| ==> t[k] == 0.0
    ensures SortedShrunk(data, t, argsort, pava) == Gather(Magnitudes(data), DescendingIndex(Magnitudes(data), argsort))
  {
    var mags := Magnitudes(data);
    var ix := DescendingIndex(mags, argsort);
    var sorted := Gather(mags, ix);
    assert NonIncreasing(sorted) && forall k :: 0 <= k < |sorted| ==> sorted[k] >= 0.0;
    ZeroShiftFixed(sorted, t, pava);
  }

  /** A non-increasing, non-negative sequence minus zero thresholds is a
      fixed point of a projection that keeps non-increasing input, and of
      the clip at 0. */
  lemma ZeroShiftFixed(sorted: seq<real>, t: seq<real>, pava: seq<real> -> seq<real>)
    requires forall y :: NonIncreasing(y) ==> pava(y) == y
    requires NonIncreasing(sorted) && forall k :: 0 <= k < |sorted| ==> sorted[k] >= 0.0
    requires |t| == |sorted| && forall k :: 0 <= k < |t| ==> t[k] == 0.0
    ensures Clip0(pava(Sub(Spread(sorted, |t|), t))) == sorted
  {
    assert Sub(Spread(sorted, |t|), t) == sorted;
    assert Clip0(sorted) == sorted;
  }

  /** The source computes the sign as data / np.abs(data), which is 0/0, a
      NaN, at a zero entry; None stands for that NaN. */
  function SignAsWritten(x: real): (r: Option<real>)
    ensures r.None? <==> x == 0.0
    ensures r.Some? ==> r.value == Sign(x)
  {
    if x == 0.0 then None else Some(x / Abs(x))
  }

  /** OWL._prox_owl as written: every zero entry of the input comes out as
      NaN (None); every other entry is the one ProxOwl computes. */
  function ProxOwlAsWritten(data: seq<real>, thr: Weights, argsort: seq<real> -> seq<int>,
                            pava: seq<real> -> seq<real>): (r: Result<seq<Option<real>>, Error>)
    requires IsArgsortFn(argsort) && KeepsLength(pava)
    ensures r.Ok? <==> ProxOwl(data, thr, argsort, pava).Ok?
    ensures r.Ok? ==> |r.value| == |data| && forall i :: 0 <= i < |data| ==>
      (r.value[i].None? <==> data[i] == 0.0) &&
      (r.value[i].Some? ==> r.value[i].value == ProxOwl(data, thr, argsort, pava).value[i])
  {
    var b := Broadcast(thr, |data|);
    if b.None? then Err(ShapeMismatch)
    else if !Aligned(|data|, b.value) then Err(NothingToUnsort)
    else
      ProxOwlValue(data, thr, argsort, pava);
      Ok(ApplySignsAsWritten(data, OwlMagnitudes(data, b.value, argsort, pava)))
  }

  /** Where the thresholds fit, ProxOwl is the signed OwlMagnitudes. */
  lemma ProxOwlValue(data: seq<real>, thr: Weights, argsort: seq<real> -> seq<int>, pava: seq<real> -> seq<real>)
    requires IsArgsortFn(argsort) && KeepsLength(pava) && Fits(thr, |data|)
    ensures ProxOwl(data, thr, argsort, pava) ==
      Ok(ApplySigns(data, OwlMagnitudes(data, Broadcast(thr, |data|).value, argsort, pava)))
  {
  }

  /** data / |data| * m, entry by entry: NaN (None) at a zero entry, and
      ApplySigns's value elsewhere. */
  function ApplySignsAsWritten(data: seq<real>, m: seq<real>): (out: seq<Option<real>>)
    requires |m| == |data| && forall i :: 0 <= i < |m| ==> m[i] >= 0.0
    ensures |out| == |data| && forall i :: 0 <= i < |data| ==>
      (out[i].None? <==> data[i] == 0.0) && (out[i].Some? ==> out[i].value == ApplySigns(data, m)[i])
  {
    seq(|data|, i requires 0 <= i < |data| =>
      match SignAsWritten(data[i])
      case None => None
      case Some(sg) => Some(sg * m[i]))
  }

  /** A vector of two zeros: the source returns two NaNs where the operator
      evidently means to return the zeros it was given. */
  lemma ZeroEntriesBecomeNaN(argsort: seq<real> -> seq<int>, pava: seq<real> -> seq<real>)
    requires IsArgsortFn(argsort) && KeepsLength(pava)
    ensures ProxOwlAsWritten([0.0, 0.0], Scalar(0.0), argsort, pava) == Ok([None, None])
    ensures ProxOwl([0.0, 0.0], Scalar(0.0), argsort, pava) == Ok([0.0, 0.0])
  {
    var data := [0.0, 0.0];
    var t := Broadcast(Scalar(0.0), 2).value;
    var m := OwlMagnitudes(data, t, argsort, pava);
    var asWritten := ApplySignsAsWritten(data, m);
    assert asWritten[0].None? && asWritten[1].None?;
    assert asWritten == [None, None];
    var signed := ApplySigns(data, m);
    assert signed[0] == 0.0 && signed[1] == 0.0;
    assert signed == data;
  }

  /** The mode string, compared with `is` in the source. */
  datatype Mode = All | BandBased | CoeffBased | Unknown

  /** data_shape: a number of coefficients ('all') or a list of band shapes
      ('band_based'). */
  datatype DataShape = Size(n: int) | Bands(shapes: seq<seq<nat>>)

  /** The size argument handed to _oscar_weights: a count, or (for a list of
      band shapes in 'all' mode) the list data_shape * n_channel. */
  datatype OscarSize = Count(n: int) | ShapeList(shapes: seq<seq<nat>>)

  /** Python's list * int: the list repeated k times, empty for k <= 0. */
  function Repeat(shapes: seq<seq<nat>>, k: int): (r: seq<seq<nat>>)
    ensures |r| == if k <= 0 then 0 else k * |shapes|
    ensures k >= 1 ==> r[..|shapes|] == shapes
    ensures forall i :: 0 <= i < |r| ==> r[i] in shapes
    decreases k
  {
    if k <= 0 then [] else shapes + Repeat(shapes, k - 1)
  }

  /** data_shape * n_channel: a product for a number, a repetition for a
      list. */
  function ShapeTimes(shape: DataShape, nChannel: int): (r: OscarSize)
    ensures shape.Size? ==> r == Count(shape.n * nChannel)
    ensures shape.Bands? ==> r == ShapeList(Repeat(shape.shapes, nChannel))
  {
    match shape
    case Size(n) => Count(n * nChannel)
    case Bands(shapes) => ShapeList(Repeat(shapes, nChannel))
  }

  /** An OWL object: its weights, its mode and, when it was built for
      band_based mode with OSCAR weights, the band shapes. */
  datatype OwlProx = OwlProx(weights: Weights, mode: Mode, bandShape: Option<seq<seq<nat>>>)

  /** The objects the constructor builds: band shapes come with one weight
      array per band. */
  predicate Valid(o: OwlProx)
  {
    o.bandShape.Some? ==> o.mode.BandBased? && o.weights.PerBand? && |o.weights.bands| == |o.bandShape.value|
  }

  /** OWL.__init__. Without beta the weights are alpha as given. With beta
      the OSCAR weights (`oscar`, which is not part of this model) replace
      them, for the size data_shape * n_channel ('all', whatever the kind of
      data_shape), n_channel * prod(band shape) per band ('band_based', where
      a number cannot be iterated over) or n_channel ('coeff_based'); a
      missing data shape or an unknown mode is an error. */
  function New(alpha: Weights, beta: Option<real>, dataShape: Option<DataShape>, mode: Mode,
               nChannel: int, oscar: (Weights, real, OscarSize) -> seq<real>): (r: Result<OwlProx, Error>)
    ensures r.Ok? ==> Valid(r.value) && r.value.mode == mode
    ensures beta.None? ==> r == Ok(OwlProx(alpha, mode, None))
    ensures beta.Some? ==>
      (r.Err? <==> dataShape.None? || mode.Unknown? || (mode.BandBased? && dataShape.value.Size?))
    ensures beta.Some? && dataShape.None? ==> r == Err(MissingDataShape)
    ensures r.Ok? && beta.Some? && mode.BandBased? ==>
      && r.value.bandShape == Some(dataShape.value.shapes)
      && r.value.weights == PerBand(seq(|dataShape.value.shapes|, k requires 0 <= k < |dataShape.value.shapes| =>
           oscar(alpha, beta.value, Count(nChannel * Prod(dataShape.value.shapes[k])))))
    ensures r.Ok? && beta.Some? && mode.All? ==>
      r.value == OwlProx(Vector(oscar(alpha, beta.value, ShapeTimes(dataShape.value, nChannel))), All, None)
    ensures r.Ok? && beta.Some? && mode.CoeffBased? ==>
      r.value == OwlProx(Vector(oscar(alpha, beta.value, Count(nChannel))), CoeffBased, None)
  {
    if beta.None? then Ok(OwlProx(alpha, mode, None))
    else if dataShape.None? then Err(MissingDataShape)
    else match mode
      case All =>
        Ok(OwlProx(Vector(oscar(alpha, beta.value, ShapeTimes(dataShape.value, nChannel))), mode, None))
      case BandBased =>
        if dataShape.value.Bands? then
          var shapes := dataShape.value.shapes;
          var ws := seq(|shapes|, k requires 0 <= k < |shapes| => oscar(alpha, beta.value, Count(nChannel * Prod(shapes[k]))));
          Ok(OwlProx(PerBand(ws), mode, Some(shapes)))
        else Err(WrongShapeKind)
      case CoeffBased =>
        Ok(OwlProx(Vector(oscar(alpha, beta.value, Count(nChannel))), mode, None))
      case Unknown => Err(UnknownMode)
  }

  /** The thresholds of band k in band_based mode: its weights times
      extra_factor. */
  function BandThreshold(weights: seq<seq<real>>, k: nat, extraFactor: real): Weights
    requires k < |weights|
  {
    Vector(ScaleVec(weights[k], extraFactor))
  }

  /** The flattened data of band k, data[:, start:stop] reshaped to one
      vector; with no channel there is nothing to cut. */
  function BandData(data: seq<seq<real>>, cols: nat, shapes: seq<seq<nat>>, k: nat): (v: seq<real>)
    requires k < |shapes| && forall c :: 0 <= c < |data| ==> |data[c]| == cols
    requires data == [] || Offset(shapes, k + 1) <= cols
  {
    Flatten(BandCols(data, Offset(shapes, k), Offset(shapes, k + 1)))
  }

  /** What the fill loops need of the prox they apply: on success it returns
      one value per input entry. */
  ghost predicate KeepsShape(prox: (seq<real>, Weights) -> Result<seq<real>, Error>)
  {
    forall v, t :: prox(v, t).Ok? ==> |prox(v, t).value| == |v|
  }

  /** Band k goes through: it lies inside the columns (or there is no row
      to reshape) and its prox succeeds. */
  predicate BandOk(data: seq<seq<real>>, cols: nat, shapes: seq<seq<nat>>, weights: seq<seq<real>>,
                   extraFactor: real, prox: (seq<real>, Weights) -> Result<seq<real>, Error>, k: nat)
    requires k < |shapes| && k < |weights| && forall c :: 0 <= c < |data| ==> |data[c]| == cols
  {
    && (data == [] || Offset(shapes, k + 1) <= cols)
    && prox(BandData(data, cols, shapes, k), BandThreshold(weights, k, extraFactor)).Ok?
  }

  /** The output block of band k: the prox of its flattened data, reshaped
      to (channels x band size). */
  function BandResult(data: seq<seq<real>>, nch: nat, cols: nat, shapes: seq<seq<nat>>, weights: seq<seq<real>>,
                      extraFactor: real, prox: (seq<real>, Weights) -> Result<seq<real>, Error>, k: nat)
    : (b: seq<seq<real>>)
    requires KeepsShape(prox) && IsMatrix(data, nch, cols)
    requires k < |shapes| && k < |weights| && BandOk(data, cols, shapes, weights, extraFactor, prox, k)
    ensures IsMatrix(b, nch, Prod(shapes[k]))
  {
    var v := BandData(data, cols, shapes, k);
    FlattenLength(BandCols(data, Offset(shapes, k), Offset(shapes, k + 1)), nch, Prod(shapes[k]));
    Reshape(prox(v, BandThreshold(weights, k, extraFactor)).value, nch, Prod(shapes[k]))
  }

  /** output[:, start:start+n] = block, for a block of n columns. */
  method WriteBlock(out: array2<real>, start: nat, n: nat, block: seq<seq<real>>)
    requires IsMatrix(block, out.Length0, n) && start + n <= out.Length1
    modifies out
    ensures forall c, j :: 0 <= c < out.Length0 && start <= j < start + n ==> out[c, j] == block[c][j - start]
    ensures forall c, j :: 0 <= c < out.Length0 && 0 <= j < out.Length1 && !(start <= j < start + n) ==>
      out[c, j] == old(out[c, j])
  {
    for c := 0 to out.Length0
      invariant forall c', j :: 0 <= c' < c && start <= j < start + n ==> out[c', j] == block[c'][j - start]
      invariant forall c', j :: 0 <= c' < out.Length0 && 0 <= j < out.Length1 && !(c' < c && start <= j < start + n) ==>
        out[c', j] == old(out[c', j])
    {
      for j := start to start + n
        invariant forall c', j' :: 0 <= c' < c && start <= j' < start + n ==> out[c', j'] == block[c'][j' - start]
        invariant forall j' :: start <= j' < j ==> out[c, j'] == block[c][j' - start]
        invariant forall c', j' ::
          (0 <= c' < out.Length0 && 0 <= j' < out.Length1 && !(c' < c && start <= j' < start + n) && !(c' == c && start <= j' < j))
          ==> out[c', j'] == old(out[c', j'])
      {
        out[c, j] := block[c][j - start];
      }
    }
  }

  /** OWL.op in band_based mode, for the prox `prox` (ProxOwl in Op): a
      zeroed output, then band after band (as many as there are both shapes
      and weight arrays) the block output[:, start:stop] takes the band's
      prox and the cursor moves to stop. It fails exactly when some band does
      not go through; otherwise every column of band k holds band k's result
      and the columns after the last band stay 0. */
  method OpBandBased(data: seq<seq<real>>, nch: nat, cols: nat, shapes: seq<seq<nat>>, weights: seq<seq<real>>,
                     extraFactor: real, prox: (seq<real>, Weights) -> Result<seq<real>, Error>)
    returns (r: Result<array2<real>, Error>)
    requires KeepsShape(prox) && IsMatrix(data, nch, cols)
    ensures var count := if |shapes| < |weights| then |shapes| else |weights|;
      r.Ok? <==> forall k :: 0 <= k < count ==> BandOk(data, cols, shapes, weights, extraFactor, prox, k)
    ensures r.Ok? ==> fresh(r.value) && r.value.Length0 == nch && r.value.Length1 == cols
    ensures var count := if |shapes| < |weights| then |shapes| else |weights|;
      r.Ok? && nch > 0 ==> Offset(shapes, count) <= cols
    ensures var count := if |shapes| < |weights| then |shapes| else |weights|;
      r.Ok? ==> forall k, c, j :: 0 <= k < count && 0 <= c < nch && Offset(shapes, k) <= j < Offset(shapes, k + 1) && j < cols ==>
        r.value[c, j] == BandResult(data, nch, cols, shapes, weights, extraFactor, prox, k)[c][j - Offset(shapes, k)]
    ensures var count := if |shapes| < |weights| then |shapes| else |weights|;
      r.Ok? ==> forall c, j :: 0 <= c < nch && Offset(shapes, count) <= j < cols ==> r.value[c, j] == 0.0
  {
    var count := if |shapes| < |weights| then |shapes| else |weights|;
    var out := new real[nch, cols]((c, j) => 0.0);
    var start := 0;
    for k := 0 to count
      invariant start == Offset(shapes, k)
      invariant nch > 0 ==> start <= cols
      invariant BandsWritten(out, data, nch, cols, shapes, weights, extraFactor, prox, k)
      invariant ZerosFrom(out, nch, cols, start)
    {
      var n := Prod(shapes[k]);
      var stop := start + n;
      if nch > 0 && stop > cols {
        assert !BandOk(data, cols, shapes, weights, extraFactor, prox, k);
        return Err(BandOutOfRange);
      }
      var p := prox(BandData(data, cols, shapes, k), BandThreshold(weights, k, extraFactor));
      if p.Err? {
        assert !BandOk(data, cols, shapes, weights, extraFactor, prox, k);
        return Err(p.error);
      }
      if nch > 0 {
        WriteBand(out, data, nch, cols, shapes, weights, extraFactor, prox, k);
      }
      start := stop;
    }
    return Ok(out);
  }

  /** The first k bands went through and their columns of out hold their
      blocks. */
  ghost predicate BandsWritten(out: array2<real>, data: seq<seq<real>>, nch: nat, cols: nat, shapes: seq<seq<nat>>,
                               weights: seq<seq<real>>, extraFactor: real,
                               prox: (seq<real>, Weights) -> Result<seq<real>, Error>, k: nat)
    requires KeepsShape(prox) && IsMatrix(data, nch, cols) && k <= |shapes| && k <= |weights|
    reads out
  {
    && out.Length0 == nch && out.Length1 == cols
    && (forall k' :: 0 <= k' < k ==> BandOk(data, cols, shapes, weights, extraFactor, prox, k'))
    && forall k', c, j :: 0 <= k' < k && 0 <= c < nch && Offset(shapes, k') <= j < Offset(shapes, k' + 1) && j < cols ==>
         out[c, j] == BandResult(data, nch, cols, shapes, weights, extraFactor, prox, k')[c][j - Offset(shapes, k')]
  }

  /** Every column from `start` on is still zero. */
  ghost predicate ZerosFrom(out: array2<real>, nch: nat, cols: nat, start: nat)
    reads out
  {
    forall c, j :: 0 <= c < nch && start <= j < cols && c < out.Length0 && j < out.Length1 ==> out[c, j] == 0.0
  }

  /** One turn of the band loop: band k's block goes into its columns. */
  method WriteBand(out: array2<real>, data: seq<seq<real>>, nch: nat, cols: nat, shapes: seq<seq<nat>>,
                   weights: seq<seq<real>>, extraFactor: real,
                   prox: (seq<real>, Weights) -> Result<seq<real>, Error>, k: nat)
    requires KeepsShape(prox) && IsMatrix(data, nch, cols) && k < |shapes| && k < |weights| && nch > 0
    requires BandOk(data, cols, shapes, weights, extraFactor, prox, k)
    requires BandsWritten(out, data, nch, cols, shapes, weights, extraFactor, prox, k)
    requires ZerosFrom(out, nch, cols, Offset(shapes, k))
    modifies out
    ensures BandsWritten(out, data, nch, cols, shapes, weights, extraFactor, prox, k + 1)
    ensures ZerosFrom(out, nch, cols, Offset(shapes, k + 1))
  {
    var start, stop := Offset(shapes, k), Offset(shapes, k + 1);
    assert stop == start + Prod(shapes[k]) && stop <= cols;
    var block := BandResult(data, nch, cols, shapes, weights, extraFactor, prox, k);
    WriteBlock(out, start, Prod(shapes[k]), block);
    forall k', c, j | 0 <= k' <= k && 0 <= c < nch && Offset(shapes, k') <= j < Offset(shapes, k' + 1) && j < cols
      ensures out[c, j] == BandResult(data, nch, cols, shapes, weights, extraFactor, prox, k')[c][j - Offset(shapes, k')]
    {
      if k' < k {
        OffsetMonotone(shapes, k' + 1, k);
        assert j < start;
        assert out[c, j] == old(out[c, j]);
        assert old(out[c, j]) == BandResult(data, nch, cols, shapes, weights, extraFactor, prox, k')[c][j - Offset(shapes, k')];
      } else {
        assert k' == k;
        assert out[c, j] == block[c][j - start];
      }
    }
    forall c, j | 0 <= c < nch && stop <= j < cols && c < out.Length0 && j < out.Length1
      ensures out[c, j] == 0.0
    {
      assert !(start <= j < stop);
    }
  }

  /** OWL.op in coeff_based mode, for the prox `prox` (ProxOwl in Op): a
      zeroed output whose column idx takes the prox of data[:, idx], column
      after column. With one channel and at least one column it fails on the
      first column: np.squeeze leaves a 0-d array there, and indexing it by
      the argsort raises. Otherwise it fails exactly when the prox of some
      column fails, and every column holds its prox. */
  method OpCoeffBased(data: seq<seq<real>>, nch: nat, cols: nat, thr: Weights,
                      prox: (seq<real>, Weights) -> Result<seq<real>, Error>)
    returns (r: Result<array2<real>, Error>)
    requires KeepsShape(prox) && IsMatrix(data, nch, cols)
    ensures nch == 1 && cols > 0 ==> r == Err(ZeroDimensional)
    ensures r.Ok? <==> (nch != 1 || cols == 0) && forall j :: 0 <= j < cols ==> prox(Column(data, j), thr).Ok?
    ensures r.Ok? ==> fresh(r.value) && r.value.Length0 == nch && r.value.Length1 == cols
    ensures r.Ok? ==> forall c, j :: 0 <= c < nch && 0 <= j < cols ==>
      r.value[c, j] == prox(Column(data, j), thr).value[c]
  {
    var out := new real[nch, cols]((c, j) => 0.0);
    for idx := 0 to cols
      invariant idx > 0 ==> nch != 1
      invariant forall j :: 0 <= j < idx ==> prox(Column(data, j), thr).Ok?
      invariant forall c, j :: 0 <= c < nch && 0 <= j < idx ==> out[c, j] == prox(Column(data, j), thr).value[c]
    {
      if nch == 1 {
        return Err(ZeroDimensional);
      }
      var p := prox(Column(data, idx), thr);
      if p.Err? {
        return Err(p.error);
      }
      var block := seq(nch, c requires 0 <= c < nch => [p.value[c]]);
      WriteBlock(out, idx, 1, block);
      assert forall c :: 0 <= c < nch ==> out[c, idx] == p.value[c];
    }
    return Ok(out);
  }

  /** The result of op: 'all' returns the flat vector _prox_owl gives back;
      the other modes fill a (channels x coefficients) array. */
  datatype Output = Flat(v: seq<real>) | Grid(g: array2<real>)

  /** OWL.op on a (channels x coefficients) array. An unknown mode leaves
      `output` unbound; band_based needs the band shapes the constructor
      stores only with OSCAR weights. In coeff_based mode column j of the
      result is the prox of column j; a single channel fails, since
      np.squeeze leaves a 0-d array there. */
  method Op(o: OwlProx, data: seq<seq<real>>, nch: nat, cols: nat, extraFactor: real,
            argsort: seq<real> -> seq<int>, pava: seq<real> -> seq<real>)
    returns (r: Result<Output, Error>)
    requires Valid(o) && IsArgsortFn(argsort) && KeepsLength(pava) && IsMatrix(data, nch, cols)
    ensures o.mode.Unknown? ==> r == Err(UnboundOutput)
    ensures o.mode.BandBased? && o.bandShape.None? ==> r == Err(MissingBandShape)
    ensures (o.mode.All? || o.mode.CoeffBased?) && o.weights.PerBand? ==> r == Err(NotMultipliable)
    ensures o.mode.All? && !o.weights.PerBand? ==>
      match ProxOwl(Flatten(data), Times(o.weights, extraFactor).value, argsort, pava)
      case Ok(v) => r == Ok(Flat(v))
      case Err(e) => r == Err(e)
    ensures o.mode.CoeffBased? && !o.weights.PerBand? ==>
      var t := Times(o.weights, extraFactor).value;
      && (nch == 1 && cols > 0 ==> r == Err(ZeroDimensional))
      && (r.Ok? <==> (nch != 1 || cols == 0) && forall j :: 0 <= j < cols ==> ProxOwl(Column(data, j), t, argsort, pava).Ok?)
      && (r.Ok? ==> r.value.Grid? && fresh(r.value.g) && r.value.g.Length0 == nch && r.value.g.Length1 == cols)
      && (r.Ok? ==> forall c, j :: 0 <= c < nch && 0 <= j < cols ==>
            r.value.g[c, j] == ProxOwl(Column(data, j), t, argsort, pava).value[c])
    ensures o.mode.BandBased? && r.Ok? ==> r.value.Grid? && fresh(r.value.g) && r.value.g.Length0 == nch && r.value.g.Length1 == cols
  {
    var prox := (v: seq<real>, t: Weights) => ProxOwl(v, t, argsort, pava);
    match o.mode
    case All =>
      var t := Times(o.weights, extraFactor);
      if t.None? { return Err(NotMultipliable); }
      var p := ProxOwl(Flatten(data), t.value, argsort, pava);
      if p.Err? { return Err(p.error); }
      return Ok(Flat(p.value));
    case BandBased =>
      if o.bandShape.None? { return Err(MissingBandShape); }
      var g := OpBandBased(data, nch, cols, o.bandShape.value, o.weights.bands, extraFactor, prox);
      if g.Err? { return Err(g.error); }
      return Ok(Grid(g.value));
    case CoeffBased =>
      var t := Times(o.weights, extraFactor);
      if t.None? { return Err(NotMultipliable); }
      var g := OpCoeffBased(data, nch, cols, t.value, prox);
      if g.Err? { return Err(g.error); }
      return Ok(Grid(g.value));
    case Unknown =>
      return Err(UnboundOutput);
  }

  /** OWL.get_cost is not implemented in the source: it warns and returns 0
      whatever the data. */
  function GetCost(data: seq<seq<real>>): (r: real)
    ensures r == 0.0
  {
    0.0
  }
}
