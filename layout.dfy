/** numpy's row-major reshapes of a (channels x coefficients) array, and the
    column bands that OWL's band_based mode cuts out of it. */
module Layout {
  import opened Numeric

  /** flatten(): the rows one after the other. */
  function Flatten(m: seq<seq<real>>): (v: seq<real>)
    decreases |m|
  {
    if m == [] then [] else m[0] + Flatten(m[1..])
  }

  lemma {:induction false} FlattenLength(m: seq<seq<real>>, rows: nat, n: nat)
    requires IsMatrix(m, rows, n)
    ensures |Flatten(m)| == rows * n
  {
    if m != [] {
      FlattenLength(m[1..], rows - 1, n);
      assert rows * n == n + (rows - 1) * n;
    }
  }

  /** reshape(v, (rows, n)) of a vector of rows * n entries. */
  function Reshape(v: seq<real>, rows: nat, n: nat): (m: seq<seq<real>>)
    requires |v| == rows * n
    ensures IsMatrix(m, rows, n)
    decreases rows
  {
    if rows == 0 then []
    else
      assert rows * n == n + (rows - 1) * n;
      [v[..n]] + Reshape(v[n..], rows - 1, n)
  }

  /** Reshaping a flattened matrix back to its shape gives the matrix again. */
  lemma {:induction false} ReshapeFlatten(m: seq<seq<real>>, rows: nat, n: nat)
    requires IsMatrix(m, rows, n)
    ensures |Flatten(m)| == rows * n && Reshape(Flatten(m), rows, n) == m
  {
    FlattenLength(m, rows, n);
    if m != [] {
      ReshapeFlatten(m[1..], rows - 1, n);
      var v := Flatten(m);
      assert v[..n] == m[0];
      assert v[n..] == Flatten(m[1..]);
    }
  }

  /** Flattening a reshaped vector gives the vector again. */
  lemma {:induction false} FlattenReshape(v: seq<real>, rows: nat, n: nat)
    requires |v| == rows * n
    ensures Flatten(Reshape(v, rows, n)) == v
    decreases rows
  {
    if rows != 0 {
      assert rows * n == n + (rows - 1) * n;
      FlattenReshape(v[n..], rows - 1, n);
      assert v == v[..n] + v[n..];
    }
  }

  /** data[:, start:stop] for columns that lie inside every row. */
  function BandCols(data: seq<seq<real>>, start: nat, stop: nat): (b: seq<seq<real>>)
    requires start <= stop && forall c :: 0 <= c < |data| ==> stop <= |data[c]|
    ensures IsMatrix(b, |data|, stop - start)
    ensures forall c, j :: 0 <= c < |data| && start <= j < stop ==> b[c][j - start] == data[c][j]
  {
    seq(|data|, c requires 0 <= c < |data| => data[c][start..stop])
  }

  /** np.prod of a band shape. */
  function Prod(shape: seq<nat>): nat
  {
    if shape == [] then 1 else shape[0] * Prod(shape[1..])
  }

  /** The first column of band k: the sizes of the bands before it added up,
      which is where the `start` cursor of the loop stands. */
  function Offset(shapes: seq<seq<nat>>, k: nat): (o: nat)
    requires k <= |shapes|
  {
    if k == 0 then 0 else Offset(shapes, k - 1) + Prod(shapes[k - 1])
  }

  /** The offsets never decrease. */
  lemma {:induction false} OffsetMonotone(shapes: seq<seq<nat>>, j: nat, k: nat)
    requires j <= k <= |shapes|
    ensures Offset(shapes, j) <= Offset(shapes, k)
    decreases k - j
  {
    if j < k { OffsetMonotone(shapes, j, k - 1); }
  }

  /** Two different bands share no column. */
  lemma BandsDisjoint(shapes: seq<seq<nat>>, k1: nat, k2: nat, j: nat)
    requires k1 < |shapes| && k2 < |shapes|
    requires Offset(shapes, k1) <= j < Offset(shapes, k1 + 1)
    requires Offset(shapes, k2) <= j < Offset(shapes, k2 + 1)
    ensures k1 == k2
  {
    if k1 < k2 { OffsetMonotone(shapes, k1 + 1, k2); }
    if k2 < k1 { OffsetMonotone(shapes, k2 + 1, k1); }
  }

  /** The band of the first `count` bands that holds column j: the bands tile
      the columns [0, Offset(shapes, count)) without gaps. */
  function BandOf(shapes: seq<seq<nat>>, count: nat, j: nat): (k: nat)
    requires count <= |shapes| && j < Offset(shapes, count)
    ensures k < count && Offset(shapes, k) <= j < Offset(shapes, k + 1)
    decreases count
  {
    if j >= Offset(shapes, count - 1) then count - 1 else BandOf(shapes, count - 1, j)
  }
}
