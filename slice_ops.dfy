/**
 * In-place helpers the group-by prover runs on arena buffers. Their bodies are
 * not part of this model; each is written as the loop that achieves the
 * formula stated where the prover calls it.
 */
module SliceOps {
  import opened Scalars

  /**
   * `fold_columns(res, mul, beta, columns)`: for every row i of `res`,
   * res[i] += mul * sum over j of beta^j * columns[j][i], a column shorter
   * than `res` reading zero past its end.
   */
  method FoldColumns(res: array<Scalar>, mul: Scalar, beta: Scalar, columns: seq<seq<Scalar>>)
    modifies res
    ensures forall i :: 0 <= i < res.Length ==>
      res[i] == old(res[i]) + mul * FoldVals(beta, RowKey(columns, i))
  {
    var i := 0;
    while i < res.Length
      invariant 0 <= i <= res.Length
      invariant forall k :: 0 <= k < i ==> res[k] == old(res[k]) + mul * FoldVals(beta, RowKey(columns, k))
      invariant forall k :: i <= k < res.Length ==> res[k] == old(res[k])
    {
      var acc := FoldRow(beta, columns, i);
      res[i] := res[i] + mul * acc;
      i := i + 1;
    }
  }

  /** The fold of row `i` of `columns`: sum over j of beta^j * columns[j][i]. */
  method FoldRow(beta: Scalar, columns: seq<seq<Scalar>>, i: nat) returns (acc: Scalar)
    ensures acc == FoldVals(beta, RowKey(columns, i))
  {
    acc := 0.0;
    var power := 1.0;
    var j := 0;
    while j < |columns|
      invariant 0 <= j <= |columns|
      invariant power == Pow(beta, j)
      invariant acc == FoldVals(beta, RowKey(columns[..j], i))
    {
      FoldRowStep(beta, columns, i, j, acc, power);
      acc := acc + power * Pad(columns[j], i);
      power := power * beta;
      j := j + 1;
    }
    assert columns[..|columns|] == columns;
  }

  /** One iteration of `FoldRow`: the next column's entry, weighted by the running power. */
  lemma FoldRowStep(beta: Scalar, columns: seq<seq<Scalar>>, i: nat, j: nat, acc: Scalar, power: Scalar)
    requires j < |columns|
    requires power == Pow(beta, j) && acc == FoldVals(beta, RowKey(columns[..j], i))
    ensures acc + power * Pad(columns[j], i) == FoldVals(beta, RowKey(columns[..j + 1], i))
    ensures power * beta == Pow(beta, j + 1)
  {
    FoldRowKeyStep(beta, columns, i, j);
  }

  /** `slice_cast_mut(src, dst)`: dst[i] becomes src[i] cast into the field, for every i < |src|. */
  method SliceCastMut(src: seq<int>, dst: array<Scalar>)
    requires |src| <= dst.Length
    modifies dst
    ensures forall i :: 0 <= i < |src| ==> dst[i] == IntScalar(src[i])
    ensures forall i :: |src| <= i < dst.Length ==> dst[i] == old(dst[i])
  {
    var i := 0;
    while i < |src|
      invariant 0 <= i <= |src|
      invariant forall k :: 0 <= k < i ==> dst[k] == IntScalar(src[k])
      invariant forall k :: i <= k < dst.Length ==> dst[k] == old(dst[k])
    {
      dst[i] := IntScalar(src[i]);
      i := i + 1;
    }
  }

  /**
   * `batch_inversion(&mut a[lo..hi])`: every element of the slice is replaced by
   * its inverse, zero elements staying zero; the rest of `a` is untouched.
   */
  method BatchInversion(a: array<Scalar>, lo: nat, hi: nat)
    requires lo <= hi <= a.Length
    modifies a
    ensures forall i :: lo <= i < hi ==> a[i] == InvOrZero(old(a[i]))
    ensures forall i :: 0 <= i < a.Length && !(lo <= i < hi) ==> a[i] == old(a[i])
  {
    var i := lo;
    while i < hi
      invariant lo <= i <= hi
      invariant forall k :: lo <= k < i ==> a[k] == InvOrZero(old(a[k]))
      invariant forall k :: 0 <= k < a.Length && !(lo <= k < i) ==> a[k] == old(a[k])
    {
      a[i] := InvOrZero(a[i]);
      i := i + 1;
    }
  }

  /** `a[lo..].fill(v)`. */
  method FillFrom(a: array<Scalar>, lo: nat, v: Scalar)
    requires lo <= a.Length
    modifies a
    ensures forall i :: lo <= i < a.Length ==> a[i] == v
    ensures forall i :: 0 <= i < lo ==> a[i] == old(a[i])
  {
    var i := lo;
    while i < a.Length
      invariant lo <= i <= a.Length
      invariant forall k :: lo <= k < i ==> a[k] == v
      invariant forall k :: 0 <= k < lo ==> a[k] == old(a[k])
    {
      a[i] := v;
      i := i + 1;
    }
  }
}
