/**
 * Scalars of the proof system. The source's scalar is a prime field; here it is
 * modelled as an exact field (Dafny's `real`), in which the inverse is defined
 * everywhere except at zero. Nothing below uses more than the field axioms.
 */
module Scalars {

  type Scalar = real

  /** `Scalar::inv`: the multiplicative inverse, which exists off zero only. */
  function Inv(x: Scalar): (r: Scalar)
    requires x != 0.0
    ensures x * r == 1.0
  {
    1.0 / x
  }

  /**
   * The per-element effect of batch inversion: a nonzero element is replaced
   * by its inverse, a zero element is left at zero.
   */
  function InvOrZero(x: Scalar): (r: Scalar)
    ensures x != 0.0 ==> x * r == 1.0
    ensures x == 0.0 ==> r == 0.0
  {
    if x == 0.0 then 0.0 else Inv(x)
  }

  /** `b` raised to the power `e`. */
  function Pow(b: Scalar, e: nat): Scalar
  {
    if e == 0 then 1.0 else Pow(b, e - 1) * b
  }

  /** A boolean as a scalar (false is zero, true is one). */
  function BoolScalar(b: bool): Scalar
  {
    if b then 1.0 else 0.0
  }

  /** An integer (an `i64` count, say) cast into the field. */
  function IntScalar(x: int): Scalar
  {
    x as real
  }

  /** Element `i` of a column, reading zero past its end (a zero-padded column). */
  function Pad(col: seq<Scalar>, i: nat): Scalar
  {
    if i < |col| then col[i] else 0.0
  }

  /**
   * `fold_vals(beta, vals)`: the random linear combination
   * sum over j of beta^j * vals[j].
   */
  function FoldVals(beta: Scalar, vals: seq<Scalar>): Scalar
  {
    if |vals| == 0 then 0.0
    else FoldVals(beta, vals[..|vals| - 1]) + Pow(beta, |vals| - 1) * vals[|vals| - 1]
  }

  /** Row `i` of a list of columns, as a tuple; each column is read zero padded. */
  function RowKey(cols: seq<seq<Scalar>>, i: nat): (key: seq<Scalar>)
    ensures |key| == |cols|
    ensures forall j :: 0 <= j < |cols| ==> key[j] == Pad(cols[j], i)
  {
    seq(|cols|, j requires 0 <= j < |cols| => Pad(cols[j], i))
  }

  /** Folding one more column adds that column's entry weighted by the next power of beta. */
  lemma FoldRowKeyStep(beta: Scalar, cols: seq<seq<Scalar>>, i: nat, j: nat)
    requires j < |cols|
    ensures FoldVals(beta, RowKey(cols[..j + 1], i))
         == FoldVals(beta, RowKey(cols[..j], i)) + Pow(beta, j) * Pad(cols[j], i)
  {
    var k := RowKey(cols[..j + 1], i);
    assert k[..j] == RowKey(cols[..j], i);
  }

  /** The fold of an all-zero tuple is zero. */
  lemma {:induction false} FoldValsZero(beta: Scalar, vals: seq<Scalar>)
    requires forall j :: 0 <= j < |vals| ==> vals[j] == 0.0
    ensures FoldVals(beta, vals) == 0.0
  {
    if |vals| > 0 {
      FoldValsZero(beta, vals[..|vals| - 1]);
    }
  }
}
