/**
 * What the group-by protocol guarantees: the shape of the folds, the padding
 * rows, the inverse identities, completeness of the ZeroSum identity when the
 * output is a correct aggregation of the selected rows, and agreement between
 * the verifier's replay and the prover's vectors.
 */
module GroupByProofs {
  import opened Scalars
  import opened ProofBuilders
  import opened GroupByExprs

  /** The inputs of one `prove_group_by` call. */
  datatype GroupByInstance = GroupByInstance(
    alpha: Scalar, beta: Scalar,
    gIn: seq<seq<Scalar>>, sumIn: seq<seq<Scalar>>, sel: seq<bool>,
    gOut: seq<seq<Scalar>>, sumOut: seq<seq<Scalar>>, countOut: seq<int>,
    n: nat)

  function Subpolynomials(inst: GroupByInstance): (ps: seq<Subpolynomial>)
    requires inst.alpha != 0.0
    ensures |ps| == 3
  {
    GroupBySubpolynomials(inst.alpha, inst.beta, inst.gIn, inst.sumIn, inst.sel,
                          inst.gOut, inst.sumOut, inst.countOut, inst.n)
  }

  function Witnesses(inst: GroupByInstance): (w: seq<seq<Scalar>>)
    requires inst.alpha != 0.0
    ensures |w| == 2
  {
    GroupByWitnesses(inst.alpha, inst.beta, inst.gIn, inst.gOut, |inst.countOut|, inst.n)
  }

  // ------------------------------------------------------------ fold shapes

  /** sum over j of beta^(j+1) * vals[j], written out term by term. */
  function ShiftedFold(beta: Scalar, vals: seq<Scalar>): Scalar
  {
    if |vals| == 0 then 0.0
    else ShiftedFold(beta, vals[..|vals| - 1]) + Pow(beta, |vals|) * vals[|vals| - 1]
  }

  /** `beta * fold_vals(beta, v)` weights the j-th entry by beta^(j+1). */
  lemma {:induction false} ShiftedFoldIsScaledFold(beta: Scalar, vals: seq<Scalar>)
    ensures beta * FoldVals(beta, vals) == ShiftedFold(beta, vals)
  {
    if |vals| > 0 {
      var init, last := vals[..|vals| - 1], vals[|vals| - 1];
      ShiftedFoldIsScaledFold(beta, init);
      var f, p := FoldVals(beta, init), Pow(beta, |vals| - 1);
      assert FoldVals(beta, vals) == f + p * last;
      assert Pow(beta, |vals|) == p * beta;
      ShiftStep(beta, f, p, last);
    }
  }

  lemma ShiftStep(beta: Scalar, f: Scalar, p: Scalar, last: Scalar)
    ensures beta * (f + p * last) == beta * f + (p * beta) * last
  {
  }

  /**
   * The input folds at every row: g_in_fold[i] = alpha + sum_j beta^j g_in[j][i]
   * and sum_in_fold[i] = 1 + sum_j beta^(j+1) sum_in[j][i].
   */
  lemma InputFoldsAt(alpha: Scalar, beta: Scalar, gIn: seq<seq<Scalar>>, sumIn: seq<seq<Scalar>>, n: nat, i: nat)
    requires i < n
    ensures KeyFold(alpha, beta, gIn, n)[i] == alpha + FoldVals(beta, RowKey(gIn, i))
    ensures SumInFold(beta, sumIn, n)[i] == 1.0 + ShiftedFold(beta, RowKey(sumIn, i))
  {
    ShiftedFoldIsScaledFold(beta, RowKey(sumIn, i));
  }

  /** For an output row i < m: sum_out_bar_fold[i] = count_out[i] + sum_j beta^(j+1) sum_out[j][i]. */
  lemma OutputSumFoldAt(beta: Scalar, sumOut: seq<seq<Scalar>>, countOut: seq<int>, n: nat, i: nat)
    requires i < |countOut| <= n
    ensures SumOutBarFold(beta, sumOut, countOut, n)[i] == IntScalar(countOut[i]) + ShiftedFold(beta, RowKey(sumOut, i))
  {
    ShiftedFoldIsScaledFold(beta, RowKey(sumOut, i));
  }

  /** With no group-by columns every row's key fold is alpha. */
  lemma NoGroupByKeyFold(alpha: Scalar, beta: Scalar, n: nat)
    ensures forall i :: 0 <= i < n ==> KeyFold(alpha, beta, [], n)[i] == alpha
  {
  }

  /** A row past the end of every column reads as the all-zero tuple, whose fold is zero. */
  lemma FoldPastEnd(beta: Scalar, cols: seq<seq<Scalar>>, i: nat)
    requires forall j :: 0 <= j < |cols| ==> |cols[j]| <= i
    ensures FoldVals(beta, RowKey(cols, i)) == 0.0
  {
    FoldValsZero(beta, RowKey(cols, i));
  }

  /**
   * The padding rows m <= i < n, when the output columns have m rows:
   * g_out_bar_fold is alpha, sum_out_bar_fold is zero and g_out_star is alpha^-1.
   */
  lemma PaddingRows(inst: GroupByInstance, i: nat)
    requires inst.alpha != 0.0
    requires |inst.countOut| <= i < inst.n
    requires forall j :: 0 <= j < |inst.gOut| ==> |inst.gOut[j]| <= |inst.countOut|
    requires forall j :: 0 <= j < |inst.sumOut| ==> |inst.sumOut[j]| <= |inst.countOut|
    ensures KeyFold(inst.alpha, inst.beta, inst.gOut, inst.n)[i] == inst.alpha
    ensures SumOutBarFold(inst.beta, inst.sumOut, inst.countOut, inst.n)[i] == 0.0
    ensures Witnesses(inst)[1][i] == Inv(inst.alpha)
  {
    FoldPastEnd(inst.beta, inst.gOut, i);
    FoldPastEnd(inst.beta, inst.sumOut, i);
  }

  // ------------------------------------------------------- row values

  lemma ProductOfTwo(a: seq<Scalar>, b: seq<Scalar>, i: nat)
    ensures ProductAt([a, b], i) == Pad(a, i) * Pad(b, i)
  {
    assert [a][..0] == [];
    assert ProductAt([a], i) == Pad(a, i);
    assert [a, b][..1] == [a];
  }

  lemma ProductOfThree(a: seq<Scalar>, b: seq<Scalar>, c: seq<Scalar>, i: nat)
    ensures ProductAt([a, b, c], i) == Pad(a, i) * Pad(b, i) * Pad(c, i)
  {
    assert [a, b, c][..2] == [a, b];
    ProductOfTwo(a, b, i);
  }

  lemma TermsOfTwo(s: Term, t: Term, i: nat)
    ensures TermsAt([s, t], i) == s.coefficient * ProductAt(s.multiplicands, i) + t.coefficient * ProductAt(t.multiplicands, i)
  {
    assert [s][..0] == [];
    assert TermsAt([s], i) == s.coefficient * ProductAt(s.multiplicands, i);
    assert [s, t][..1] == [s];
  }

  /** An Identity row `star * fold - 1`: it vanishes exactly where star is the inverse of fold. */
  lemma InverseIdentityRow(star: seq<Scalar>, fold: seq<Scalar>, i: nat)
    ensures RowValue(InverseIdentity(star, fold), i) == Pad(star, i) * Pad(fold, i) - 1.0
    ensures RowValue(InverseIdentity(star, fold), i) == 0.0 <==> Pad(star, i) * Pad(fold, i) == 1.0
  {
    TermsOfTwo(Term(1.0, [star, fold]), Term(-1.0, []), i);
    ProductOfTwo(star, fold, i);
  }

  /** A ZeroSum row: `g_in_star * sel * sum_in_fold - g_out_star * sum_out_bar_fold`. */
  lemma ZeroSumRow(gInStar: seq<Scalar>, sel: seq<bool>, sumInFold: seq<Scalar>,
                   gOutStar: seq<Scalar>, sumOutBarFold: seq<Scalar>, i: nat)
    ensures RowValue(ZeroSumPolynomial(gInStar, sel, sumInFold, gOutStar, sumOutBarFold), i)
         == Pad(gInStar, i) * Pad(BoolColumn(sel), i) * Pad(sumInFold, i) - Pad(gOutStar, i) * Pad(sumOutBarFold, i)
  {
    TermsOfTwo(Term(1.0, [gInStar, BoolColumn(sel), sumInFold]), Term(-1.0, [gOutStar, sumOutBarFold]), i);
    ProductOfThree(gInStar, BoolColumn(sel), sumInFold, i);
    ProductOfTwo(gOutStar, sumOutBarFold, i);
  }

  /** One row of the two Identity subpolynomials. */
  lemma IdentityRowVanishes(inst: GroupByInstance, i: nat)
    requires inst.alpha != 0.0
    requires |inst.countOut| <= i < inst.n ==> forall j :: 0 <= j < |inst.gOut| ==> |inst.gOut[j]| <= i
    requires i < inst.n
    requires KeyFold(inst.alpha, inst.beta, inst.gIn, inst.n)[i] != 0.0
    requires i < |inst.countOut| ==> KeyFold(inst.alpha, inst.beta, inst.gOut, inst.n)[i] != 0.0
    ensures Witnesses(inst)[0][i] * KeyFold(inst.alpha, inst.beta, inst.gIn, inst.n)[i] == 1.0
    ensures Witnesses(inst)[1][i] * KeyFold(inst.alpha, inst.beta, inst.gOut, inst.n)[i] == 1.0
    ensures RowValue(Subpolynomials(inst)[1], i) == 0.0 && RowValue(Subpolynomials(inst)[2], i) == 0.0
  {
    var gInFold := KeyFold(inst.alpha, inst.beta, inst.gIn, inst.n);
    var gOutBarFold := KeyFold(inst.alpha, inst.beta, inst.gOut, inst.n);
    var w := Witnesses(inst);
    if i >= |inst.countOut| {
      FoldPastEnd(inst.beta, inst.gOut, i);
      assert gOutBarFold[i] == inst.alpha;
    }
    InverseIdentityRow(w[0], gInFold, i);
    InverseIdentityRow(w[1], gOutBarFold, i);
  }

  /**
   * With alpha nonzero and no fold zero, g_in_star * g_in_fold = 1 and
   * g_out_star * g_out_bar_fold = 1 at every row, so both Identity
   * subpolynomials vanish everywhere. The output columns have at most the m
   * rows of the count column.
   */
  lemma IdentityRowsVanish(inst: GroupByInstance)
    requires inst.alpha != 0.0
    requires forall j :: 0 <= j < |inst.gOut| ==> |inst.gOut[j]| <= |inst.countOut|
    requires forall i :: 0 <= i < inst.n ==> KeyFold(inst.alpha, inst.beta, inst.gIn, inst.n)[i] != 0.0
    requires forall i :: 0 <= i < |inst.countOut| && i < inst.n ==>
      KeyFold(inst.alpha, inst.beta, inst.gOut, inst.n)[i] != 0.0
    ensures forall i :: 0 <= i < inst.n ==>
      Witnesses(inst)[0][i] * KeyFold(inst.alpha, inst.beta, inst.gIn, inst.n)[i] == 1.0
    ensures forall i :: 0 <= i < inst.n ==>
      Witnesses(inst)[1][i] * KeyFold(inst.alpha, inst.beta, inst.gOut, inst.n)[i] == 1.0
    ensures forall i :: 0 <= i < inst.n ==>
      RowValue(Subpolynomials(inst)[1], i) == 0.0 && RowValue(Subpolynomials(inst)[2], i) == 0.0
  {
    forall i | 0 <= i < inst.n
      ensures Witnesses(inst)[0][i] * KeyFold(inst.alpha, inst.beta, inst.gIn, inst.n)[i] == 1.0
      ensures Witnesses(inst)[1][i] * KeyFold(inst.alpha, inst.beta, inst.gOut, inst.n)[i] == 1.0
      ensures RowValue(Subpolynomials(inst)[1], i) == 0.0 && RowValue(Subpolynomials(inst)[2], i) == 0.0
    {
      IdentityRowVanishes(inst, i);
    }
  }

  // --------------------------------------------------- correct aggregation

  predicate Selected(sel: seq<bool>, i: nat)
  {
    i < |sel| && sel[i]
  }

  /** Row i is selected and its key tuple is `key`. */
  predicate InGroup(gIn: seq<seq<Scalar>>, sel: seq<bool>, key: seq<Scalar>, i: nat)
  {
    Selected(sel, i) && RowKey(gIn, i) == key
  }

  /** The number of rows below r in the group of `key`. */
  function GroupCount(gIn: seq<seq<Scalar>>, sel: seq<bool>, key: seq<Scalar>, r: nat): nat
  {
    if r == 0 then 0 else GroupCount(gIn, sel, key, r - 1) + (if InGroup(gIn, sel, key, r - 1) then 1 else 0)
  }

  /** `GroupCount` counted in the field. */
  function GroupSize(gIn: seq<seq<Scalar>>, sel: seq<bool>, key: seq<Scalar>, r: nat): Scalar
  {
    if r == 0 then 0.0 else GroupSize(gIn, sel, key, r - 1) + (if InGroup(gIn, sel, key, r - 1) then 1.0 else 0.0)
  }

  lemma {:induction false} GroupSizeIsCount(gIn: seq<seq<Scalar>>, sel: seq<bool>, key: seq<Scalar>, r: nat)
    ensures GroupSize(gIn, sel, key, r) == IntScalar(GroupCount(gIn, sel, key, r))
  {
    if r > 0 {
      GroupSizeIsCount(gIn, sel, key, r - 1);
    }
  }

  /** The sum of `col` over the rows below r in the group of `key`. */
  function GroupSum(gIn: seq<seq<Scalar>>, sel: seq<bool>, col: seq<Scalar>, key: seq<Scalar>, r: nat): Scalar
  {
    if r == 0 then 0.0
    else GroupSum(gIn, sel, col, key, r - 1) + (if InGroup(gIn, sel, key, r - 1) then Pad(col, r - 1) else 0.0)
  }

  /** The number of selected rows below r. */
  function SelectedCount(sel: seq<bool>, r: nat): nat
  {
    if r == 0 then 0 else SelectedCount(sel, r - 1) + (if Selected(sel, r - 1) then 1 else 0)
  }

  /**
   * What `aggregate_columns` promises: the m output key tuples are distinct,
   * every selected row's key is one of them, and each output row carries its
   * group's row count and column sums.
   */
  predicate Aggregates(inst: GroupByInstance)
  {
    var m := |inst.countOut|;
    && m <= inst.n
    && |inst.gOut| == |inst.gIn| && |inst.sumOut| == |inst.sumIn|
    && (forall j :: 0 <= j < |inst.gOut| ==> |inst.gOut[j]| == m)
    && (forall j :: 0 <= j < |inst.sumOut| ==> |inst.sumOut[j]| == m)
    && (forall k1, k2 :: 0 <= k1 < k2 < m ==> RowKey(inst.gOut, k1) != RowKey(inst.gOut, k2))
    && (forall i :: 0 <= i < inst.n && Selected(inst.sel, i) ==>
          exists k :: 0 <= k < m && RowKey(inst.gOut, k) == RowKey(inst.gIn, i))
    && (forall k :: 0 <= k < m ==> inst.countOut[k] == GroupCount(inst.gIn, inst.sel, RowKey(inst.gOut, k), inst.n))
    && (forall j, k :: 0 <= j < |inst.sumOut| && 0 <= k < m ==>
          inst.sumOut[j][k] == GroupSum(inst.gIn, inst.sel, inst.sumIn[j], RowKey(inst.gOut, k), inst.n))
  }

  /** How many of the first k output keys row r's group matches. */
  function Hits(inst: GroupByInstance, r: nat, k: nat): nat
  {
    if k == 0 then 0
    else Hits(inst, r, k - 1) + (if InGroup(inst.gIn, inst.sel, RowKey(inst.gOut, k - 1), r) then 1 else 0)
  }

  lemma {:induction false} HitsNone(inst: GroupByInstance, r: nat, k: nat)
    requires forall k' :: 0 <= k' < k ==> !InGroup(inst.gIn, inst.sel, RowKey(inst.gOut, k'), r)
    ensures Hits(inst, r, k) == 0
  {
    if k > 0 {
      HitsNone(inst, r, k - 1);
    }
  }

  lemma {:induction false} HitsOne(inst: GroupByInstance, r: nat, k0: nat, k: nat)
    requires k0 < k
    requires InGroup(inst.gIn, inst.sel, RowKey(inst.gOut, k0), r)
    requires forall k' :: 0 <= k' < k && k' != k0 ==> !InGroup(inst.gIn, inst.sel, RowKey(inst.gOut, k'), r)
    ensures Hits(inst, r, k) == 1
  {
    if k - 1 == k0 {
      HitsNone(inst, r, k - 1);
    } else {
      HitsOne(inst, r, k0, k - 1);
    }
  }

  /** Under a correct aggregation, a selected row falls in exactly one output group, an unselected one in none. */
  lemma HitsExactlyOnce(inst: GroupByInstance, r: nat)
    requires Aggregates(inst)
    requires r < inst.n
    ensures Hits(inst, r, |inst.countOut|) == if Selected(inst.sel, r) then 1 else 0
  {
    var m := |inst.countOut|;
    if Selected(inst.sel, r) {
      var k0 :| 0 <= k0 < m && RowKey(inst.gOut, k0) == RowKey(inst.gIn, r);
      forall k' | 0 <= k' < m && k' != k0
        ensures !InGroup(inst.gIn, inst.sel, RowKey(inst.gOut, k'), r)
      {
        if k' < k0 {
          assert RowKey(inst.gOut, k') != RowKey(inst.gOut, k0);
        } else {
          assert RowKey(inst.gOut, k0) != RowKey(inst.gOut, k');
        }
      }
      HitsOne(inst, r, k0, m);
    } else {
      HitsNone(inst, r, m);
    }
  }

  /** The counts of the first k output groups, over rows below r. */
  function CountTotal(inst: GroupByInstance, r: nat, k: nat): nat
  {
    if k == 0 then 0 else CountTotal(inst, r, k - 1) + GroupCount(inst.gIn, inst.sel, RowKey(inst.gOut, k - 1), r)
  }

  lemma {:induction false} CountTotalStep(inst: GroupByInstance, r: nat, k: nat)
    ensures CountTotal(inst, r + 1, k) == CountTotal(inst, r, k) + Hits(inst, r, k)
  {
    if k > 0 {
      CountTotalStep(inst, r, k - 1);
    }
  }

  lemma {:induction false} CountTotalIsSelected(inst: GroupByInstance, r: nat)
    requires Aggregates(inst)
    requires r <= inst.n
    ensures CountTotal(inst, r, |inst.countOut|) == SelectedCount(inst.sel, r)
  {
    if r == 0 {
      CountTotalZero(inst, |inst.countOut|);
    } else {
      CountTotalIsSelected(inst, r - 1);
      CountTotalStep(inst, r - 1, |inst.countOut|);
      HitsExactlyOnce(inst, r - 1);
    }
  }

  lemma {:induction false} CountTotalZero(inst: GroupByInstance, k: nat)
    ensures CountTotal(inst, 0, k) == 0
  {
    if k > 0 {
      CountTotalZero(inst, k - 1);
    }
  }

  function IntSum(s: seq<int>): int
  {
    if |s| == 0 then 0 else IntSum(s[..|s| - 1]) + s[|s| - 1]
  }

  /** Under a correct aggregation, the count column adds up to the number of selected rows. */
  lemma CountsAddUpToSelected(inst: GroupByInstance)
    requires Aggregates(inst)
    ensures IntSum(inst.countOut) == SelectedCount(inst.sel, inst.n)
  {
    CountTotalIsSelected(inst, inst.n);
    CountPrefix(inst, |inst.countOut|);
    assert inst.countOut[..|inst.countOut|] == inst.countOut;
  }

  lemma {:induction false} CountPrefix(inst: GroupByInstance, k: nat)
    requires Aggregates(inst)
    requires k <= |inst.countOut|
    ensures IntSum(inst.countOut[..k]) == CountTotal(inst, inst.n, k)
  {
    if k > 0 {
      CountPrefix(inst, k - 1);
      assert inst.countOut[..k][..k - 1] == inst.countOut[..k - 1];
    }
  }

  // ------------------------------------------------- ZeroSum completeness

  /** Element-wise sum of two tuples of the same width. */
  function VecAdd(u: seq<Scalar>, v: seq<Scalar>): (w: seq<Scalar>)
    requires |u| == |v|
    ensures |w| == |u|
  {
    seq(|u|, j requires 0 <= j < |u| => u[j] + v[j])
  }

  /** `fold_vals` is linear: folding a sum of tuples is the sum of their folds. */
  lemma {:induction false} FoldValsAdd(beta: Scalar, u: seq<Scalar>, v: seq<Scalar>)
    requires |u| == |v|
    ensures FoldVals(beta, VecAdd(u, v)) == FoldVals(beta, u) + FoldVals(beta, v)
  {
    var k := |u|;
    if k > 0 {
      var w := VecAdd(u, v);
      assert w[..k - 1] == VecAdd(u[..k - 1], v[..k - 1]);
      FoldValsAdd(beta, u[..k - 1], v[..k - 1]);
      Distribute(Pow(beta, k - 1), u[k - 1], v[k - 1]);
    }
  }

  lemma Distribute(c: Scalar, a: Scalar, b: Scalar)
    ensures c * (a + b) == c * a + c * b
  {
  }

  /** The column sums of the group of `key` over the rows below r, one per sum column. */
  function GroupSums(inst: GroupByInstance, key: seq<Scalar>, r: nat): (sums: seq<Scalar>)
    ensures |sums| == |inst.sumIn|
  {
    seq(|inst.sumIn|, j requires 0 <= j < |inst.sumIn| => GroupSum(inst.gIn, inst.sel, inst.sumIn[j], key, r))
  }

  lemma GroupSumsStep(inst: GroupByInstance, key: seq<Scalar>, r: nat)
    requires r >= 1
    ensures InGroup(inst.gIn, inst.sel, key, r - 1) ==>
      GroupSums(inst, key, r) == VecAdd(GroupSums(inst, key, r - 1), RowKey(inst.sumIn, r - 1))
    ensures !InGroup(inst.gIn, inst.sel, key, r - 1) ==> GroupSums(inst, key, r) == GroupSums(inst, key, r - 1)
  {
  }

  lemma GroupSumsEmpty(inst: GroupByInstance, key: seq<Scalar>)
    ensures FoldVals(inst.beta, GroupSums(inst, key, 0)) == 0.0
  {
    FoldValsZero(inst.beta, GroupSums(inst, key, 0));
  }

  /** 1/(alpha + fold of `key`), or zero where that vanishes: the batch-inverted key fold. */
  function KeyWeight(inst: GroupByInstance, key: seq<Scalar>): Scalar
  {
    InvOrZero(inst.alpha + FoldVals(inst.beta, key))
  }

  /**
   * Input and output weight vectors agree on every (input row, output row)
   * pair of the same group: the only property of `g_in_star` and `g_out_star`
   * the regrouping argument needs.
   */
  predicate ConsistentWeights(inst: GroupByInstance, wIn: seq<Scalar>, wOut: seq<Scalar>)
  {
    forall i, k :: 0 <= i < inst.n && 0 <= k < |inst.countOut| && InGroup(inst.gIn, inst.sel, RowKey(inst.gOut, k), i) ==>
      Pad(wIn, i) == Pad(wOut, k)
  }

  /** The batch-inverted key folds weigh rows of equal key equally. */
  lemma WitnessesConsistent(inst: GroupByInstance)
    requires inst.alpha != 0.0
    requires |inst.countOut| <= inst.n
    ensures ConsistentWeights(inst, Witnesses(inst)[0], Witnesses(inst)[1])
  {
    forall i, k | 0 <= i < inst.n && 0 <= k < |inst.countOut| && InGroup(inst.gIn, inst.sel, RowKey(inst.gOut, k), i)
      ensures Pad(Witnesses(inst)[0], i) == Pad(Witnesses(inst)[1], k)
    {
      InStarFactor(inst, i);
      OutStarFactor(inst, k);
    }
  }

  /** What input row i adds to its group: its weight times its `sum_in_fold` entry. */
  function RowContribution(inst: GroupByInstance, wIn: seq<Scalar>, i: nat): Scalar
  {
    Pad(wIn, i) * Pad(SumInFold(inst.beta, inst.sumIn, inst.n), i)
  }

  /** `g_in_star * sel * sum_in_fold` at row i. */
  function InTerm(inst: GroupByInstance, wIn: seq<Scalar>, i: nat): Scalar
  {
    Pad(wIn, i) * Pad(BoolColumn(inst.sel), i) * Pad(SumInFold(inst.beta, inst.sumIn, inst.n), i)
  }

  /** `g_out_star * sum_out_bar_fold` at row k. */
  function OutTerm(inst: GroupByInstance, wOut: seq<Scalar>, k: nat): Scalar
  {
    Pad(wOut, k) * Pad(SumOutBarFold(inst.beta, inst.sumOut, inst.countOut, inst.n), k)
  }

  /** The input side of the ZeroSum identity, summed over rows below r. */
  function InputSide(inst: GroupByInstance, wIn: seq<Scalar>, r: nat): Scalar
  {
    if r == 0 then 0.0 else InputSide(inst, wIn, r - 1) + InTerm(inst, wIn, r - 1)
  }

  /** The output side of the ZeroSum identity, summed over rows below r. */
  function OutputSide(inst: GroupByInstance, wOut: seq<Scalar>, r: nat): Scalar
  {
    if r == 0 then 0.0 else OutputSide(inst, wOut, r - 1) + OutTerm(inst, wOut, r - 1)
  }

  // The prover's vectors at row i.

  lemma InStarFactor(inst: GroupByInstance, i: nat)
    requires inst.alpha != 0.0
    requires i < inst.n
    ensures Pad(Witnesses(inst)[0], i) == KeyWeight(inst, RowKey(inst.gIn, i))
  {
  }

  lemma OutStarFactor(inst: GroupByInstance, k: nat)
    requires inst.alpha != 0.0
    requires k < |inst.countOut| && k < inst.n
    ensures Pad(Witnesses(inst)[1], k) == KeyWeight(inst, RowKey(inst.gOut, k))
  {
  }

  lemma SelectionFactor(sel: seq<bool>, i: nat)
    ensures Pad(BoolColumn(sel), i) == BoolScalar(Selected(sel, i))
  {
  }

  lemma SumInFactor(inst: GroupByInstance, i: nat)
    requires i < inst.n
    ensures Pad(SumInFold(inst.beta, inst.sumIn, inst.n), i)
         == 1.0 + inst.beta * FoldVals(inst.beta, RowKey(inst.sumIn, i))
  {
  }

  lemma SumOutFactor(inst: GroupByInstance, i: nat)
    requires i < inst.n
    ensures Pad(SumOutBarFold(inst.beta, inst.sumOut, inst.countOut, inst.n), i)
         == PadCount(inst.countOut, i) + inst.beta * FoldVals(inst.beta, RowKey(inst.sumOut, i))
  {
  }

  lemma ZeroSumIsFirst(inst: GroupByInstance)
    requires inst.alpha != 0.0
    ensures Subpolynomials(inst)[0] == ZeroSumOf(inst, Witnesses(inst)[0], Witnesses(inst)[1])
  {
  }

  /** The ZeroSum subpolynomial of the instance's folds, for weight vectors wIn and wOut. */
  function ZeroSumOf(inst: GroupByInstance, wIn: seq<Scalar>, wOut: seq<Scalar>): Subpolynomial
  {
    ZeroSumPolynomial(wIn, inst.sel, SumInFold(inst.beta, inst.sumIn, inst.n), wOut,
                      SumOutBarFold(inst.beta, inst.sumOut, inst.countOut, inst.n))
  }

  /** One row of the ZeroSum subpolynomial. */
  lemma ZeroSumRowValue(inst: GroupByInstance, wIn: seq<Scalar>, wOut: seq<Scalar>, i: nat)
    ensures RowValue(ZeroSumOf(inst, wIn, wOut), i) == InTerm(inst, wIn, i) - OutTerm(inst, wOut, i)
  {
    ZeroSumRow(wIn, inst.sel, SumInFold(inst.beta, inst.sumIn, inst.n), wOut,
               SumOutBarFold(inst.beta, inst.sumOut, inst.countOut, inst.n), i);
  }

  lemma Regroup(a: Scalar, b: Scalar, c: Scalar, b': Scalar)
    requires b == b'
    ensures a * b * c == b' * (a * c)
  {
  }

  /** An input row's term is its contribution where it is selected, zero elsewhere. */
  lemma InTermIsSelected(inst: GroupByInstance, wIn: seq<Scalar>, i: nat)
    ensures InTerm(inst, wIn, i) == BoolScalar(Selected(inst.sel, i)) * RowContribution(inst, wIn, i)
  {
    SelectionFactor(inst.sel, i);
    Regroup(Pad(wIn, i), Pad(BoolColumn(inst.sel), i), Pad(SumInFold(inst.beta, inst.sumIn, inst.n), i),
            BoolScalar(Selected(inst.sel, i)));
  }

  /** The ZeroSum row sum splits into the input side minus the output side. */
  lemma {:induction false} ZeroSumSplits(inst: GroupByInstance, wIn: seq<Scalar>, wOut: seq<Scalar>, r: nat)
    requires r <= inst.n
    ensures RowSum(ZeroSumOf(inst, wIn, wOut), r) == InputSide(inst, wIn, r) - OutputSide(inst, wOut, r)
  {
    if r > 0 {
      ZeroSumSplits(inst, wIn, wOut, r - 1);
      ZeroSumRowValue(inst, wIn, wOut, r - 1);
    }
  }

  // The regrouping argument, for any weights that agree within a group.

  /** Past the m output rows the output side stops growing. */
  lemma {:induction false} OutputSidePadding(inst: GroupByInstance, wOut: seq<Scalar>, r: nat)
    requires |inst.countOut| <= r <= inst.n
    requires forall j :: 0 <= j < |inst.sumOut| ==> |inst.sumOut[j]| <= |inst.countOut|
    ensures OutputSide(inst, wOut, r) == OutputSide(inst, wOut, |inst.countOut|)
  {
    if r > |inst.countOut| {
      OutputSidePadding(inst, wOut, r - 1);
      OutTermPastEnd(inst, wOut, r - 1);
    }
  }

  /** A padding row adds nothing to the output side. */
  lemma OutTermPastEnd(inst: GroupByInstance, wOut: seq<Scalar>, i: nat)
    requires |inst.countOut| <= i < inst.n
    requires forall j :: 0 <= j < |inst.sumOut| ==> |inst.sumOut[j]| <= |inst.countOut|
    ensures OutTerm(inst, wOut, i) == 0.0
  {
    SumOutFactor(inst, i);
    FoldPastEnd(inst.beta, inst.sumOut, i);
    ZeroWeighted(inst.beta, FoldVals(inst.beta, RowKey(inst.sumOut, i)));
    ZeroWeighted(Pad(wOut, i), Pad(SumOutBarFold(inst.beta, inst.sumOut, inst.countOut, inst.n), i));
  }

  lemma ZeroWeighted(w: Scalar, f: Scalar)
    requires f == 0.0
    ensures w * f == 0.0
  {
  }

  /**
   * Count plus beta times the fold of the column sums, over the rows below r
   * in the group of `key`: the `sum_out_bar_fold` entry that group's output
   * row must carry.
   */
  function GroupFold(inst: GroupByInstance, key: seq<Scalar>, r: nat): Scalar
  {
    GroupSize(inst.gIn, inst.sel, key, r) + inst.beta * FoldVals(inst.beta, GroupSums(inst, key, r))
  }

  /** Output group k's fold over input rows below r, weighted by the group's output weight. */
  function GroupTerm(inst: GroupByInstance, wOut: seq<Scalar>, k: nat, r: nat): Scalar
  {
    Pad(wOut, k) * GroupFold(inst, RowKey(inst.gOut, k), r)
  }

  /** The group terms of the first k output groups over input rows below r. */
  function Grouped(inst: GroupByInstance, wOut: seq<Scalar>, r: nat, k: nat): Scalar
  {
    if k == 0 then 0.0 else Grouped(inst, wOut, r, k - 1) + GroupTerm(inst, wOut, k - 1, r)
  }

  /** A correct output row k carries its group's fold over all n rows. */
  lemma OutputFoldIsGroup(inst: GroupByInstance, k: nat)
    requires Aggregates(inst)
    requires k < |inst.countOut|
    ensures Pad(SumOutBarFold(inst.beta, inst.sumOut, inst.countOut, inst.n), k) == GroupFold(inst, RowKey(inst.gOut, k), inst.n)
  {
    var key := RowKey(inst.gOut, k);
    SumOutFactor(inst, k);
    GroupSizeIsCount(inst.gIn, inst.sel, key, inst.n);
    assert PadCount(inst.countOut, k) == GroupSize(inst.gIn, inst.sel, key, inst.n);
    assert RowKey(inst.sumOut, k) == GroupSums(inst, key, inst.n);
  }

  /** Every output row carries its group's fold. */
  predicate OutputsAreGroups(inst: GroupByInstance)
  {
    forall k :: 0 <= k < |inst.countOut| ==>
      Pad(SumOutBarFold(inst.beta, inst.sumOut, inst.countOut, inst.n), k) == GroupFold(inst, RowKey(inst.gOut, k), inst.n)
  }

  lemma AggregatesOutputsAreGroups(inst: GroupByInstance)
    requires Aggregates(inst)
    ensures OutputsAreGroups(inst)
  {
    forall k | 0 <= k < |inst.countOut|
      ensures Pad(SumOutBarFold(inst.beta, inst.sumOut, inst.countOut, inst.n), k) == GroupFold(inst, RowKey(inst.gOut, k), inst.n)
    {
      OutputFoldIsGroup(inst, k);
    }
  }

  lemma {:induction false} OutputSideIsGrouped(inst: GroupByInstance, wOut: seq<Scalar>, k: nat)
    requires OutputsAreGroups(inst)
    requires k <= |inst.countOut|
    ensures OutputSide(inst, wOut, k) == Grouped(inst, wOut, inst.n, k)
  {
    if k > 0 {
      OutputSideIsGrouped(inst, wOut, k - 1);
      OutTermIsGroupTerm(inst, wOut, k - 1);
    }
  }

  lemma OutTermIsGroupTerm(inst: GroupByInstance, wOut: seq<Scalar>, k: nat)
    requires OutputsAreGroups(inst)
    requires k < |inst.countOut|
    ensures OutTerm(inst, wOut, k) == GroupTerm(inst, wOut, k, inst.n)
  {
    assert Pad(SumOutBarFold(inst.beta, inst.sumOut, inst.countOut, inst.n), k)
        == GroupFold(inst, RowKey(inst.gOut, k), inst.n);
  }

  lemma GroupFoldEmpty(inst: GroupByInstance, key: seq<Scalar>)
    ensures GroupFold(inst, key, 0) == 0.0
  {
    GroupSumsEmpty(inst, key);
    ZeroWeighted(inst.beta, FoldVals(inst.beta, GroupSums(inst, key, 0)));
  }

  lemma {:induction false} GroupedEmpty(inst: GroupByInstance, wOut: seq<Scalar>, k: nat)
    ensures Grouped(inst, wOut, 0, k) == 0.0
  {
    if k > 0 {
      GroupedEmpty(inst, wOut, k - 1);
      GroupFoldEmpty(inst, RowKey(inst.gOut, k - 1));
      ZeroWeighted(Pad(wOut, k - 1), GroupFold(inst, RowKey(inst.gOut, k - 1), 0));
      assert GroupTerm(inst, wOut, k - 1, 0) == 0.0;
    }
  }

  /** A row joining a group, over abstract values: the count grows by one, the sums fold by the row's fold. */
  lemma AddOneRow(countOld: Scalar, beta: Scalar, foldOld: Scalar, foldRow: Scalar)
    ensures (countOld + 1.0) + beta * (foldOld + foldRow) == (countOld + beta * foldOld) + (1.0 + beta * foldRow)
  {
  }

  /** A group's count and sum fold grow by one and by row r-1's fold when that row joins it. */
  lemma GroupGrows(inst: GroupByInstance, key: seq<Scalar>, r: nat)
    requires r >= 1 && InGroup(inst.gIn, inst.sel, key, r - 1)
    ensures GroupSize(inst.gIn, inst.sel, key, r) == GroupSize(inst.gIn, inst.sel, key, r - 1) + 1.0
    ensures FoldVals(inst.beta, GroupSums(inst, key, r))
         == FoldVals(inst.beta, GroupSums(inst, key, r - 1)) + FoldVals(inst.beta, RowKey(inst.sumIn, r - 1))
  {
    GroupSumsStep(inst, key, r);
    FoldValsAdd(inst.beta, GroupSums(inst, key, r - 1), RowKey(inst.sumIn, r - 1));
  }

  /** Row r-1 joining the group of `key` adds its `sum_in_fold` entry to the group's fold. */
  lemma GroupFoldJoin(inst: GroupByInstance, key: seq<Scalar>, r: nat)
    requires 1 <= r <= inst.n && InGroup(inst.gIn, inst.sel, key, r - 1)
    ensures GroupFold(inst, key, r) == GroupFold(inst, key, r - 1) + Pad(SumInFold(inst.beta, inst.sumIn, inst.n), r - 1)
  {
    var cOld := GroupSize(inst.gIn, inst.sel, key, r - 1);
    var foldOld := FoldVals(inst.beta, GroupSums(inst, key, r - 1));
    var foldRow := FoldVals(inst.beta, RowKey(inst.sumIn, r - 1));
    GroupGrows(inst, key, r);
    GroupFoldOf(inst, key, r, cOld + 1.0, foldOld + foldRow);
    SumInFactor(inst, r - 1);
    AddOneRow(cOld, inst.beta, foldOld, foldRow);
  }

  /** `GroupFold` from its count and its sum fold. */
  lemma GroupFoldOf(inst: GroupByInstance, key: seq<Scalar>, r: nat, count: Scalar, fold: Scalar)
    requires GroupSize(inst.gIn, inst.sel, key, r) == count
    requires FoldVals(inst.beta, GroupSums(inst, key, r)) == fold
    ensures GroupFold(inst, key, r) == count + inst.beta * fold
  {
  }

  lemma GroupFoldSkip(inst: GroupByInstance, key: seq<Scalar>, r: nat)
    requires r >= 1 && !InGroup(inst.gIn, inst.sel, key, r - 1)
    ensures GroupFold(inst, key, r) == GroupFold(inst, key, r - 1)
  {
    GroupSumsStep(inst, key, r);
  }

  lemma DistributeJoin(w: Scalar, fNew: Scalar, fOld: Scalar, s: Scalar, w': Scalar)
    requires fNew == fOld + s && w == w'
    ensures w * fNew == w * fOld + w' * s
  {
  }

  /** Row r-1 joining output group k adds its contribution to the group's term, given equal weights. */
  lemma GroupTermJoin(inst: GroupByInstance, wIn: seq<Scalar>, wOut: seq<Scalar>, k: nat, r: nat)
    requires 1 <= r <= inst.n && InGroup(inst.gIn, inst.sel, RowKey(inst.gOut, k), r - 1)
    requires Pad(wIn, r - 1) == Pad(wOut, k)
    ensures GroupTerm(inst, wOut, k, r) == GroupTerm(inst, wOut, k, r - 1) + RowContribution(inst, wIn, r - 1)
  {
    var key := RowKey(inst.gOut, k);
    GroupFoldJoin(inst, key, r);
    DistributeJoin(Pad(wOut, k), GroupFold(inst, key, r), GroupFold(inst, key, r - 1),
               Pad(SumInFold(inst.beta, inst.sumIn, inst.n), r - 1), Pad(wIn, r - 1));
  }

  lemma GroupTermSkip(inst: GroupByInstance, wOut: seq<Scalar>, k: nat, r: nat)
    requires r >= 1 && !InGroup(inst.gIn, inst.sel, RowKey(inst.gOut, k), r - 1)
    ensures GroupTerm(inst, wOut, k, r) == GroupTerm(inst, wOut, k, r - 1)
  {
    GroupFoldSkip(inst, RowKey(inst.gOut, k), r);
  }

  /** Group k's term over rows below r: row r-1's contribution added exactly when that row joins the group. */
  lemma GroupTermStep(inst: GroupByInstance, wIn: seq<Scalar>, wOut: seq<Scalar>, k: nat, r: nat)
    requires 1 <= r <= inst.n
    requires InGroup(inst.gIn, inst.sel, RowKey(inst.gOut, k), r - 1) ==> Pad(wIn, r - 1) == Pad(wOut, k)
    ensures GroupTerm(inst, wOut, k, r)
         == if InGroup(inst.gIn, inst.sel, RowKey(inst.gOut, k), r - 1)
            then GroupTerm(inst, wOut, k, r - 1) + RowContribution(inst, wIn, r - 1)
            else GroupTerm(inst, wOut, k, r - 1)
  {
    if InGroup(inst.gIn, inst.sel, RowKey(inst.gOut, k), r - 1) {
      GroupTermJoin(inst, wIn, wOut, k, r);
    } else {
      GroupTermSkip(inst, wOut, k, r);
    }
  }

  /** c added to itself h times. */
  function Times(h: nat, c: Scalar): Scalar
  {
    if h == 0 then 0.0 else Times(h - 1, c) + c
  }

  /** The bookkeeping of one `GroupedStep` case, over abstract values: h hits before group k-1, hk after. */
  lemma StepArithmetic(gNew: Scalar, gNewPrev: Scalar, gOld: Scalar, gOldPrev: Scalar,
                       tNew: Scalar, tOld: Scalar, joins: bool, h: nat, hk: nat, c: Scalar)
    requires gNew == gNewPrev + tNew && gOld == gOldPrev + tOld
    requires gNewPrev == gOldPrev + Times(h, c)
    requires tNew == (if joins then tOld + c else tOld)
    requires hk == (if joins then h + 1 else h)
    ensures gNew == gOld + Times(hk, c)
  {
  }

  /** Taking row r-1 into account adds its contribution once per output group it falls in. */
  lemma {:induction false} GroupedStep(inst: GroupByInstance, wIn: seq<Scalar>, wOut: seq<Scalar>, r: nat, k: nat)
    requires 1 <= r <= inst.n && k <= |inst.countOut|
    requires forall k' :: 0 <= k' < k && InGroup(inst.gIn, inst.sel, RowKey(inst.gOut, k'), r - 1) ==>
      Pad(wIn, r - 1) == Pad(wOut, k')
    ensures Grouped(inst, wOut, r, k)
         == Grouped(inst, wOut, r - 1, k) + Times(Hits(inst, r - 1, k), RowContribution(inst, wIn, r - 1))
  {
    if k > 0 {
      GroupedStep(inst, wIn, wOut, r, k - 1);
      var joins := InGroup(inst.gIn, inst.sel, RowKey(inst.gOut, k - 1), r - 1);
      GroupTermStep(inst, wIn, wOut, k - 1, r);
      StepArithmetic(Grouped(inst, wOut, r, k), Grouped(inst, wOut, r, k - 1),
                     Grouped(inst, wOut, r - 1, k), Grouped(inst, wOut, r - 1, k - 1),
                     GroupTerm(inst, wOut, k - 1, r), GroupTerm(inst, wOut, k - 1, r - 1),
                     joins, Hits(inst, r - 1, k - 1), Hits(inst, r - 1, k), RowContribution(inst, wIn, r - 1));
    }
  }

  lemma HitWeight(h: nat, b: bool, c: Scalar)
    requires h == if b then 1 else 0
    ensures Times(h, c) == BoolScalar(b) * c
  {
  }

  /** Every selected input row falls in exactly one output group, every other row in none. */
  predicate RowsInOneGroup(inst: GroupByInstance)
  {
    forall i :: 0 <= i < inst.n ==> Hits(inst, i, |inst.countOut|) == if Selected(inst.sel, i) then 1 else 0
  }

  lemma AggregatesRowsInOneGroup(inst: GroupByInstance)
    requires Aggregates(inst)
    ensures RowsInOneGroup(inst)
  {
    forall i | 0 <= i < inst.n
      ensures Hits(inst, i, |inst.countOut|) == if Selected(inst.sel, i) then 1 else 0
    {
      HitsExactlyOnce(inst, i);
    }
  }

  /** When every row falls in at most one group, the input side, regrouped by output group, is the grouped sum. */
  lemma {:induction false} InputSideIsGrouped(inst: GroupByInstance, wIn: seq<Scalar>, wOut: seq<Scalar>, r: nat)
    requires RowsInOneGroup(inst)
    requires ConsistentWeights(inst, wIn, wOut)
    requires r <= inst.n
    ensures InputSide(inst, wIn, r) == Grouped(inst, wOut, r, |inst.countOut|)
  {
    if r == 0 {
      GroupedEmpty(inst, wOut, |inst.countOut|);
    } else {
      InputSideIsGrouped(inst, wIn, wOut, r - 1);
      GroupedStep(inst, wIn, wOut, r, |inst.countOut|);
      assert forall k' :: 0 <= k' < |inst.countOut| && InGroup(inst.gIn, inst.sel, RowKey(inst.gOut, k'), r - 1) ==>
        Pad(wIn, r - 1) == Pad(wOut, k');
      InTermIsSelected(inst, wIn, r - 1);
      HitWeight(Hits(inst, r - 1, |inst.countOut|), Selected(inst.sel, r - 1), RowContribution(inst, wIn, r - 1));
    }
  }

  /** For any weights that agree within a group, a correct aggregation balances the two sides. */
  lemma SidesBalance(inst: GroupByInstance, wIn: seq<Scalar>, wOut: seq<Scalar>)
    requires Aggregates(inst)
    requires ConsistentWeights(inst, wIn, wOut)
    ensures InputSide(inst, wIn, inst.n) == OutputSide(inst, wOut, inst.n)
  {
    OutputSidePadding(inst, wOut, inst.n);
    AggregatesOutputsAreGroups(inst);
    OutputSideIsGrouped(inst, wOut, |inst.countOut|);
    AggregatesRowsInOneGroup(inst);
    InputSideIsGrouped(inst, wIn, wOut, inst.n);
  }

  /**
   * Completeness of the ZeroSum identity: when the first m output rows are the
   * distinct key tuples of the selected rows with their group counts and sums,
   * sum over rows of g_in_star * sel * sum_in_fold - g_out_star * sum_out_bar_fold
   * is zero. No fold needs to be nonzero.
   */
  lemma ZeroSumCompleteness(inst: GroupByInstance)
    requires inst.alpha != 0.0
    requires Aggregates(inst)
    ensures RowSum(Subpolynomials(inst)[0], inst.n) == 0.0
  {
    WitnessesConsistent(inst);
    ZeroSumIsFirst(inst);
    ZeroSumSplits(inst, Witnesses(inst)[0], Witnesses(inst)[1], inst.n);
    SidesBalance(inst, Witnesses(inst)[0], Witnesses(inst)[1]);
  }

  /**
   * The subpolynomials have degrees 3, 2 and 2, so the degree 3 the count
   * pass declares for this node is exactly their largest degree.
   */
  lemma SubpolynomialDegrees(inst: GroupByInstance, node: GroupByExpr)
    requires inst.alpha != 0.0
    ensures Degree(Subpolynomials(inst)[0]) == 3
    ensures Degree(Subpolynomials(inst)[1]) == 2 && Degree(Subpolynomials(inst)[2]) == 2
    ensures Max(Degree(Subpolynomials(inst)[0]), Max(Degree(Subpolynomials(inst)[1]), Degree(Subpolynomials(inst)[2])))
         == OwnCounts(node).degree
  {
    var w := Witnesses(inst);
    SubpolynomialsOfWitnesses(inst);
    TwoTermsDegree(ZeroSumOf(inst, w[0], w[1]).terms);
    TwoTermsDegree(InverseIdentity(w[0], KeyFold(inst.alpha, inst.beta, inst.gIn, inst.n)).terms);
    TwoTermsDegree(InverseIdentity(w[1], KeyFold(inst.alpha, inst.beta, inst.gOut, inst.n)).terms);
  }

  lemma TwoTermsDegree(terms: seq<Term>)
    requires |terms| == 2
    ensures TermsDegree(terms) == Max(|terms[0].multiplicands|, |terms[1].multiplicands|)
  {
    assert TermsDegree(terms[..1]) == Max(TermsDegree(terms[..1][..0]), |terms[0].multiplicands|);
    assert terms[..1][..0] == [];
    assert terms[..2] == terms;
  }

  // ------------------------------------------- verifier replays the prover

  /** The input column evaluations at the boolean point of row i: the row itself. */
  function RowInputs(inst: GroupByInstance, i: nat): InputEvaluations
  {
    InputEvaluations(RowKey(inst.gIn, i), RowKey(inst.sumIn, i), BoolScalar(Selected(inst.sel, i)))
  }

  /** The output column evaluations at the boolean point of row i. */
  function RowOutputs(inst: GroupByInstance, i: nat): OutputEvaluations
  {
    OutputEvaluations(RowKey(inst.gOut, i), RowKey(inst.sumOut, i), PadCount(inst.countOut, i))
  }

  lemma ReplaySumInFold(inst: GroupByInstance, i: nat)
    requires i < inst.n
    ensures SumInFoldEvaluation(1.0, inst.beta, RowKey(inst.sumIn, i)) == Pad(SumInFold(inst.beta, inst.sumIn, inst.n), i)
  {
  }

  lemma ReplaySumOutBarFold(inst: GroupByInstance, i: nat)
    requires i < inst.n
    ensures SumOutBarFoldEvaluation(PadCount(inst.countOut, i), inst.beta, RowKey(inst.sumOut, i))
         == Pad(SumOutBarFold(inst.beta, inst.sumOut, inst.countOut, inst.n), i)
  {
  }

  /** The verifier's ZeroSum evaluation at row i is the ZeroSum row value. */
  lemma ReplayZeroSum(inst: GroupByInstance, wIn: seq<Scalar>, wOut: seq<Scalar>, i: nat)
    requires i < inst.n
    ensures ZeroSumEvaluation(Pad(wIn, i), BoolScalar(Selected(inst.sel, i)),
                              SumInFoldEvaluation(1.0, inst.beta, RowKey(inst.sumIn, i)), Pad(wOut, i),
                              SumOutBarFoldEvaluation(PadCount(inst.countOut, i), inst.beta, RowKey(inst.sumOut, i)))
         == RowValue(ZeroSumOf(inst, wIn, wOut), i)
  {
    ZeroSumRowValue(inst, wIn, wOut, i);
    SelectionFactor(inst.sel, i);
    ReplaySumInFold(inst, i);
    ReplaySumOutBarFold(inst, i);
  }

  lemma ReplayIdentity(alpha: Scalar, beta: Scalar, star: seq<Scalar>, cols: seq<seq<Scalar>>, n: nat, i: nat)
    requires i < n
    ensures IdentityEvaluation(1.0, Pad(star, i), KeyFoldEvaluation(1.0, alpha, beta, RowKey(cols, i)))
         == RowValue(InverseIdentity(star, KeyFold(alpha, beta, cols, n)), i)
  {
    InverseIdentityRow(star, KeyFold(alpha, beta, cols, n), i);
    assert Pad(KeyFold(alpha, beta, cols, n), i) == KeyFoldEvaluation(1.0, alpha, beta, RowKey(cols, i));
  }

  /** The verifier's replay of row i, for any claimed star vectors. */
  lemma {:induction false} ReplayRow(inst: GroupByInstance, rand: Scalar, wIn: seq<Scalar>, wOut: seq<Scalar>, i: nat)
    requires i < inst.n
    ensures VerifierIdentityEvaluations(1.0, rand, inst.alpha, inst.beta, RowInputs(inst, i), RowOutputs(inst, i),
                                        Pad(wIn, i), Pad(wOut, i))
         == [ RowValue(ZeroSumOf(inst, wIn, wOut), i),
              rand * RowValue(InverseIdentity(wIn, KeyFold(inst.alpha, inst.beta, inst.gIn, inst.n)), i),
              rand * RowValue(InverseIdentity(wOut, KeyFold(inst.alpha, inst.beta, inst.gOut, inst.n)), i) ]
  {
    var e := VerifierIdentityEvaluations(1.0, rand, inst.alpha, inst.beta, RowInputs(inst, i), RowOutputs(inst, i),
                                         Pad(wIn, i), Pad(wOut, i));
    assert e[0] == ZeroSumEvaluation(Pad(wIn, i), BoolScalar(Selected(inst.sel, i)),
                                     SumInFoldEvaluation(1.0, inst.beta, RowKey(inst.sumIn, i)), Pad(wOut, i),
                                     SumOutBarFoldEvaluation(PadCount(inst.countOut, i), inst.beta, RowKey(inst.sumOut, i)));
    assert e[1] == rand * IdentityEvaluation(1.0, Pad(wIn, i), KeyFoldEvaluation(1.0, inst.alpha, inst.beta, RowKey(inst.gIn, i)));
    assert e[2] == rand * IdentityEvaluation(1.0, Pad(wOut, i), KeyFoldEvaluation(1.0, inst.alpha, inst.beta, RowKey(inst.gOut, i)));
    ReplayZeroSum(inst, wIn, wOut, i);
    ReplayIdentity(inst.alpha, inst.beta, wIn, inst.gIn, inst.n, i);
    ReplayIdentity(inst.alpha, inst.beta, wOut, inst.gOut, inst.n, i);
    assert e[0] == RowValue(ZeroSumOf(inst, wIn, wOut), i);
    assert e[1] == rand * RowValue(InverseIdentity(wIn, KeyFold(inst.alpha, inst.beta, inst.gIn, inst.n)), i);
    assert e[2] == rand * RowValue(InverseIdentity(wOut, KeyFold(inst.alpha, inst.beta, inst.gOut, inst.n)), i);
    assert e == [e[0], e[1], e[2]];
  }

  lemma SubpolynomialsOfWitnesses(inst: GroupByInstance)
    requires inst.alpha != 0.0
    ensures Subpolynomials(inst)
         == [ ZeroSumOf(inst, Witnesses(inst)[0], Witnesses(inst)[1]),
              InverseIdentity(Witnesses(inst)[0], KeyFold(inst.alpha, inst.beta, inst.gIn, inst.n)),
              InverseIdentity(Witnesses(inst)[1], KeyFold(inst.alpha, inst.beta, inst.gOut, inst.n)) ]
  {
  }

  /**
   * At the boolean point of any row i < n (where the `one` evaluation is 1),
   * the three evaluations `verify_group_by` registers from the column
   * evaluations and the claimed `g_in_star`, `g_out_star` values are the
   * prover's three subpolynomials at row i, the two Identity ones scaled by the
   * random selector: both sides fold the same columns with the same alpha and
   * beta, in the same order.
   */
  lemma VerifierReplaysProver(inst: GroupByInstance, rand: Scalar, i: nat)
    requires inst.alpha != 0.0
    requires i < inst.n
    ensures var e := VerifierIdentityEvaluations(1.0, rand, inst.alpha, inst.beta, RowInputs(inst, i), RowOutputs(inst, i),
                                                 Pad(Witnesses(inst)[0], i), Pad(Witnesses(inst)[1], i));
            && e[0] == RowValue(Subpolynomials(inst)[0], i)
            && e[1] == rand * RowValue(Subpolynomials(inst)[1], i)
            && e[2] == rand * RowValue(Subpolynomials(inst)[2], i)
  {
    var w := Witnesses(inst);
    var ps := Subpolynomials(inst);
    SubpolynomialsOfWitnesses(inst);
    assert ps[0] == ZeroSumOf(inst, w[0], w[1]);
    assert ps[1] == InverseIdentity(w[0], KeyFold(inst.alpha, inst.beta, inst.gIn, inst.n));
    assert ps[2] == InverseIdentity(w[1], KeyFold(inst.alpha, inst.beta, inst.gOut, inst.n));
    ReplayRow(inst, rand, w[0], w[1], i);
  }
}
