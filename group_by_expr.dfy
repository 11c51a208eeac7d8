/**
 * The group-by/sum/count proof node:
 *
 *   SELECT g_1, ..., g_M, SUM(s_1) AS a_1, ..., SUM(s_N) AS a_N, COUNT(*) AS count_alias
 *   FROM table WHERE where_clause GROUP BY g_1, ..., g_M
 *
 * Its count, result, prove and verify passes, with the folding-and-inversion
 * protocol that proves the output groups aggregate the selected input rows.
 */
module GroupByExprs {
  import opened Wrappers
  import opened Scalars
  import opened IntermediateAst
  import opened Database
  import opened SliceOps
  import opened ProofBuilders

  datatype ProofError = VerificationError(reason: string)

  /** A column-reference node. */
  datatype ColumnExpr = ColumnExpr(columnRef: ColumnRef)
  {
    function GetColumnField(): ColumnField
    {
      ColumnField(columnRef.columnId, columnRef.columnType)
    }
  }

  datatype TableExpr = TableExpr(tableRef: TableRef)

  /**
   * The selection sub-node. Its passes are not part of this model: what it
   * contributes (its counts, its selection mask, its evaluation) is supplied
   * to the group-by passes as inputs.
   */
  datatype SelectionPlan = LiteralBoolean(value: bool) | Compiled(whereExpr: Expression)

  datatype GroupByExpr = GroupByExpr(
    groupByExprs: seq<ColumnExpr>,
    sumExpr: seq<(ColumnExpr, ColumnField)>,
    countAlias: Identifier,
    table: TableExpr,
    whereClause: SelectionPlan)

  // ---------------------------------------------------------------- count pass

  /** What the node itself declares on top of its children. */
  function OwnCounts(node: GroupByExpr): (c: Counts)
    ensures c.resultColumns == |node.groupByExprs| + |node.sumExpr| + 1
    ensures c.anchoredMles == 0 && c.intermediateMles == 2 && c.subpolynomials == 3
    ensures c.degree == 3 && c.postResultChallenges == 2
  {
    Counts(|node.groupByExprs| + |node.sumExpr| + 1, 0, 2, 3, 3, 2)
  }

  lemma TotalStep(cs: seq<Counts>, j: nat)
    requires j < |cs|
    ensures Total(cs[..j + 1]) == Combine(Total(cs[..j]), cs[j])
  {
    assert cs[..j + 1][..j] == cs[..j];
  }

  /** `c` with `k` more result columns. */
  function WithResultColumns(c: Counts, k: nat): Counts
  {
    c.(resultColumns := c.resultColumns + k)
  }

  /** One loop iteration of `count`: a child's counts, then one result column. */
  lemma ChildStep(t: Counts, cs: seq<Counts>, j: nat, k: nat)
    requires j < |cs|
    ensures WithResultColumns(Combine(WithResultColumns(Combine(t, Total(cs[..j])), k), cs[j]), 1)
         == WithResultColumns(Combine(t, Total(cs[..j + 1])), k + 1)
  {
    TotalStep(cs, j);
    CombineAssociative(t, Total(cs[..j]), cs[j]);
  }

  /** The `count` loop over one list of children: each child's counts, then one result column. */
  method IncludeChildren(builder: CountBuilder, cs: seq<Counts>)
    modifies builder
    ensures builder.Totals() == WithResultColumns(Combine(old(builder.Totals()), Total(cs)), |cs|)
  {
    ghost var t0 := builder.Totals();
    CombineIdentity(t0);
    var j := 0;
    while j < |cs|
      invariant 0 <= j <= |cs|
      invariant builder.Totals() == WithResultColumns(Combine(t0, Total(cs[..j])), j)
    {
      ChildStep(t0, cs, j, j);
      builder.Include(cs[j]);
      builder.CountResultColumns(1);
      j := j + 1;
    }
    assert cs[..j] == cs;
  }

  /**
   * `count`: the where clause's count (which may fail), each group-by column's
   * count and one result column, each sum column's count and one result column,
   * then one count column, 2 intermediate MLEs, 3 subpolynomials, degree 3 and
   * 2 post-result challenges.
   */
  method Count(node: GroupByExpr, builder: CountBuilder, whereCount: Result<Counts, ProofError>,
               groupByCounts: seq<Counts>, sumCounts: seq<Counts>)
    returns (r: Result<Unit, ProofError>)
    requires |groupByCounts| == |node.groupByExprs| && |sumCounts| == |node.sumExpr|
    modifies builder
    ensures whereCount.Err? ==> r == Err(whereCount.error) && builder.Totals() == old(builder.Totals())
    ensures whereCount.Ok? ==>
      && r == Ok(Unit)
      && builder.Totals() == Combine(Combine(Combine(Combine(old(builder.Totals()), whereCount.value),
                                                     Total(groupByCounts)), Total(sumCounts)), OwnCounts(node))
  {
    if whereCount.Err? {
      return Err(whereCount.error);
    }
    builder.Include(whereCount.value);
    IncludeChildren(builder, groupByCounts);
    IncludeChildren(builder, sumCounts);
    builder.CountResultColumns(1);
    builder.CountIntermediateMles(2);
    builder.CountSubpolynomials(3);
    builder.CountDegree(3);
    builder.CountPostResultChallenges(2);
    r := Ok(Unit);
  }

  // ---------------------------------------------------------- static reflection

  /** The fields of the node's answer: group-by fields, sum aliases, then the count alias. */
  function ResultFields(node: GroupByExpr): (fields: seq<ColumnField>)
    ensures |fields| == |node.groupByExprs| + |node.sumExpr| + 1
    ensures forall i :: 0 <= i < |node.groupByExprs| ==> fields[i] == node.groupByExprs[i].GetColumnField()
    ensures forall j :: 0 <= j < |node.sumExpr| ==> fields[|node.groupByExprs| + j] == node.sumExpr[j].1
    ensures fields[|fields| - 1] == ColumnField(node.countAlias, BigInt)
  {
    seq(|node.groupByExprs|, i requires 0 <= i < |node.groupByExprs| => node.groupByExprs[i].GetColumnField())
    + seq(|node.sumExpr|, j requires 0 <= j < |node.sumExpr| => node.sumExpr[j].1)
    + [ColumnField(node.countAlias, BigInt)]
  }

  /**
   * `get_column_result_fields`: the group-by columns' fields, then the sum
   * aliases, then the count alias typed BigInt.
   */
  method GetColumnResultFields(node: GroupByExpr) returns (fields: seq<ColumnField>)
    ensures fields == ResultFields(node)
    ensures |fields| == |node.groupByExprs| + |node.sumExpr| + 1
    ensures forall i :: 0 <= i < |node.groupByExprs| ==> fields[i] == node.groupByExprs[i].GetColumnField()
    ensures forall j :: 0 <= j < |node.sumExpr| ==> fields[|node.groupByExprs| + j] == node.sumExpr[j].1
    ensures fields[|fields| - 1] == ColumnField(node.countAlias, BigInt)
  {
    fields := [];
    var i := 0;
    while i < |node.groupByExprs|
      invariant 0 <= i <= |node.groupByExprs|
      invariant |fields| == i
      invariant forall k :: 0 <= k < i ==> fields[k] == node.groupByExprs[k].GetColumnField()
    {
      fields := fields + [node.groupByExprs[i].GetColumnField()];
      i := i + 1;
    }
    var j := 0;
    while j < |node.sumExpr|
      invariant 0 <= j <= |node.sumExpr|
      invariant |fields| == |node.groupByExprs| + j
      invariant forall k :: 0 <= k < |node.groupByExprs| ==> fields[k] == node.groupByExprs[k].GetColumnField()
      invariant forall k :: 0 <= k < j ==> fields[|node.groupByExprs| + k] == node.sumExpr[k].1
    {
      fields := fields + [node.sumExpr[j].1];
      j := j + 1;
    }
    fields := fields + [ColumnField(node.countAlias, BigInt)];
  }

  /**
   * `get_column_references`: every group-by and sum column, together with the
   * references the selection sub-node reports (`whereRefs`).
   */
  method GetColumnReferences(node: GroupByExpr, whereRefs: set<ColumnRef>) returns (refs: set<ColumnRef>)
    ensures refs == (set e | e in node.groupByExprs :: e.columnRef)
                  + (set p | p in node.sumExpr :: p.0.columnRef)
                  + whereRefs
  {
    refs := {};
    var i := 0;
    while i < |node.groupByExprs|
      invariant 0 <= i <= |node.groupByExprs|
      invariant refs == set e | e in node.groupByExprs[..i] :: e.columnRef
    {
      assert node.groupByExprs[..i + 1] == node.groupByExprs[..i] + [node.groupByExprs[i]];
      refs := refs + {node.groupByExprs[i].columnRef};
      i := i + 1;
    }
    assert node.groupByExprs[..i] == node.groupByExprs;
    ghost var groupRefs := refs;
    var j := 0;
    while j < |node.sumExpr|
      invariant 0 <= j <= |node.sumExpr|
      invariant refs == groupRefs + set p | p in node.sumExpr[..j] :: p.0.columnRef
    {
      assert node.sumExpr[..j + 1] == node.sumExpr[..j] + [node.sumExpr[j]];
      refs := refs + {node.sumExpr[j].0.columnRef};
      j := j + 1;
    }
    assert node.sumExpr[..j] == node.sumExpr;
    refs := refs + whereRefs;
  }

  // --------------------------------------------------------------- result pass

  /**
   * The output of `aggregate_columns`: m-length group-by key columns, m-length
   * per-group sums and the m-length per-group row count.
   */
  datatype AggregatedColumns = AggregatedColumns(
    groupByColumns: seq<seq<Scalar>>,
    sumColumns: seq<seq<Scalar>>,
    countColumn: seq<int>)

  /** The result columns in production order: group-by keys, sums, then the count. */
  function ResultColumns(agg: AggregatedColumns): (cols: seq<Column>)
    ensures |cols| == |agg.groupByColumns| + |agg.sumColumns| + 1
    ensures forall i :: 0 <= i < |agg.groupByColumns| ==> cols[i] == ScalarColumn(agg.groupByColumns[i])
    ensures forall j :: 0 <= j < |agg.sumColumns| ==>
      cols[|agg.groupByColumns| + j] == ScalarColumn(agg.sumColumns[j])
    ensures cols[|cols| - 1] == BigIntColumn(agg.countColumn)
  {
    seq(|agg.groupByColumns|, i requires 0 <= i < |agg.groupByColumns| => ScalarColumn(agg.groupByColumns[i]))
    + seq(|agg.sumColumns|, j requires 0 <= j < |agg.sumColumns| => ScalarColumn(agg.sumColumns[j]))
    + [BigIntColumn(agg.countColumn)]
  }

  /**
   * `result_evaluate`, given what `aggregate_columns` returned for the selected
   * rows: fixes the index set to `0..m`, produces the result columns and
   * requests the two post-result challenges. `aggregate_columns` is handed the
   * node's own group-by and sum columns, so it returns one key column per
   * group-by expression and one sum column per sum expression.
   */
  method ResultEvaluate(node: GroupByExpr, builder: ResultBuilder, agg: AggregatedColumns)
    requires |agg.groupByColumns| == |node.groupByExprs| && |agg.sumColumns| == |node.sumExpr|
    requires builder.resultIndexes.None?
    modifies builder
    ensures |builder.resultColumns| - |old(builder.resultColumns)| == OwnCounts(node).resultColumns
    ensures builder.resultIndexes == Some(Dense(0, |agg.countColumn|))
    ensures builder.resultColumns == old(builder.resultColumns) + ResultColumns(agg)
    ensures builder.numPostResultChallenges == old(builder.numPostResultChallenges) + 2
  {
    builder.SetResultIndexes(Dense(0, |agg.countColumn|));
    var cols := ResultColumns(agg);
    var g, k := |agg.groupByColumns|, |agg.groupByColumns| + |agg.sumColumns|;
    var i := 0;
    while i < g
      invariant 0 <= i <= g
      invariant builder.resultIndexes == Some(Dense(0, |agg.countColumn|))
      invariant builder.numPostResultChallenges == old(builder.numPostResultChallenges)
      invariant builder.resultColumns == old(builder.resultColumns) + cols[..i]
    {
      builder.ProduceResultColumn(cols[i]);
      assert cols[..i + 1] == cols[..i] + [cols[i]];
      i := i + 1;
    }
    while i < k
      invariant g <= i <= k
      invariant builder.resultIndexes == Some(Dense(0, |agg.countColumn|))
      invariant builder.numPostResultChallenges == old(builder.numPostResultChallenges)
      invariant builder.resultColumns == old(builder.resultColumns) + cols[..i]
    {
      builder.ProduceResultColumn(cols[i]);
      assert cols[..i + 1] == cols[..i] + [cols[i]];
      i := i + 1;
    }
    builder.ProduceResultColumn(cols[k]);
    assert cols == cols[..k] + [cols[k]];
    builder.RequestPostResultChallenges(2);
  }

  /**
   * The three passes agree on the node's answer columns: the count pass declares
   * as many as the result pass produces, the verify pass consumes that many, and
   * column k of the production order is described by field k of
   * `get_column_result_fields` (the group-by keys, the sums under their
   * aliases, then the count).
   */
  lemma ResultColumnsMatchFields(node: GroupByExpr, agg: AggregatedColumns)
    requires |agg.groupByColumns| == |node.groupByExprs| && |agg.sumColumns| == |node.sumExpr|
    ensures |ResultColumns(agg)| == OwnCounts(node).resultColumns == |ResultFields(node)|
    ensures forall i :: 0 <= i < |node.groupByExprs| ==>
      ResultColumns(agg)[i] == ScalarColumn(agg.groupByColumns[i])
      && ResultFields(node)[i] == node.groupByExprs[i].GetColumnField()
    ensures forall j :: 0 <= j < |node.sumExpr| ==>
      ResultColumns(agg)[|node.groupByExprs| + j] == ScalarColumn(agg.sumColumns[j])
      && ResultFields(node)[|node.groupByExprs| + j] == node.sumExpr[j].1
    ensures ResultColumns(agg)[OwnCounts(node).resultColumns - 1] == BigIntColumn(agg.countColumn)
      && ResultFields(node)[OwnCounts(node).resultColumns - 1] == ColumnField(node.countAlias, BigInt)
  {
  }

  // ---------------------------------------------------------------- prove pass

  /** `alpha + sum beta^j * cols[j]` at every row `0..n` (`g_in_fold`, `g_out_bar_fold`). */
  function KeyFold(alpha: Scalar, beta: Scalar, cols: seq<seq<Scalar>>, n: nat): (f: seq<Scalar>)
    ensures |f| == n
  {
    seq(n, i requires 0 <= i < n => alpha + FoldVals(beta, RowKey(cols, i)))
  }

  /** `1 + sum beta^(j+1) * sum_in[j]` at every row `0..n` (`sum_in_fold`). */
  function SumInFold(beta: Scalar, sumIn: seq<seq<Scalar>>, n: nat): (f: seq<Scalar>)
    ensures |f| == n
  {
    seq(n, i requires 0 <= i < n => 1.0 + beta * FoldVals(beta, RowKey(sumIn, i)))
  }

  /** The count column cast into the field and zero padded. */
  function PadCount(countOut: seq<int>, i: nat): Scalar
  {
    if i < |countOut| then IntScalar(countOut[i]) else 0.0
  }

  /** `count_out_bar + sum beta^(j+1) * sum_out_bar[j]` at every row `0..n` (`sum_out_bar_fold`). */
  function SumOutBarFold(beta: Scalar, sumOut: seq<seq<Scalar>>, countOut: seq<int>, n: nat): (f: seq<Scalar>)
    ensures |f| == n
  {
    seq(n, i requires 0 <= i < n => PadCount(countOut, i) + beta * FoldVals(beta, RowKey(sumOut, i)))
  }

  /** `g_in_star`: the batch inverse of `g_in_fold`. */
  function InStar(fold: seq<Scalar>): (s: seq<Scalar>)
    ensures |s| == |fold|
  {
    seq(|fold|, i requires 0 <= i < |fold| => InvOrZero(fold[i]))
  }

  /** `g_out_star`: the batch inverse of `g_out_bar_fold` on `0..m`, and alpha^-1 beyond. */
  function OutStar(alpha: Scalar, fold: seq<Scalar>, m: nat): (s: seq<Scalar>)
    requires alpha != 0.0
    ensures |s| == |fold|
  {
    seq(|fold|, i requires 0 <= i < |fold| => if i < m then InvOrZero(fold[i]) else Inv(alpha))
  }

  function BoolColumn(sel: seq<bool>): (c: seq<Scalar>)
    ensures |c| == |sel|
  {
    seq(|sel|, i requires 0 <= i < |sel| => BoolScalar(sel[i]))
  }

  /** `g_in_star * sel_in * sum_in_fold - g_out_star * sum_out_bar_fold`, which must sum to zero. */
  function ZeroSumPolynomial(gInStar: seq<Scalar>, sel: seq<bool>, sumInFold: seq<Scalar>,
                             gOutStar: seq<Scalar>, sumOutBarFold: seq<Scalar>): Subpolynomial
  {
    Subpolynomial(ZeroSum, [Term(1.0, [gInStar, BoolColumn(sel), sumInFold]), Term(-1.0, [gOutStar, sumOutBarFold])])
  }

  /** `star * fold - 1`, which must be zero at every row. */
  function InverseIdentity(star: seq<Scalar>, fold: seq<Scalar>): Subpolynomial
  {
    Subpolynomial(Identity, [Term(1.0, [star, fold]), Term(-1.0, [])])
  }

  /** The witness vectors `prove_group_by` produces, in production order. */
  function GroupByWitnesses(alpha: Scalar, beta: Scalar, gIn: seq<seq<Scalar>>, gOut: seq<seq<Scalar>>,
                            m: nat, n: nat): (w: seq<seq<Scalar>>)
    requires alpha != 0.0
    ensures |w| == 2
  {
    [InStar(KeyFold(alpha, beta, gIn, n)), OutStar(alpha, KeyFold(alpha, beta, gOut, n), m)]
  }

  /** The three identities `prove_group_by` registers, in registration order. */
  function GroupBySubpolynomials(alpha: Scalar, beta: Scalar, gIn: seq<seq<Scalar>>, sumIn: seq<seq<Scalar>>,
                                 sel: seq<bool>, gOut: seq<seq<Scalar>>, sumOut: seq<seq<Scalar>>,
                                 countOut: seq<int>, n: nat): (ps: seq<Subpolynomial>)
    requires alpha != 0.0
    ensures |ps| == 3
    ensures ps[0].kind == ZeroSum && ps[1].kind == Identity && ps[2].kind == Identity
  {
    var gInFold := KeyFold(alpha, beta, gIn, n);
    var gOutBarFold := KeyFold(alpha, beta, gOut, n);
    var gInStar := InStar(gInFold);
    var gOutStar := OutStar(alpha, gOutBarFold, |countOut|);
    [ ZeroSumPolynomial(gInStar, sel, SumInFold(beta, sumIn, n), gOutStar, SumOutBarFold(beta, sumOut, countOut, n)),
      InverseIdentity(gInStar, gInFold),
      InverseIdentity(gOutStar, gOutBarFold) ]
  }

  /** `alloc_slice_copy`. */
  method CopySlice(src: array<Scalar>) returns (dst: array<Scalar>)
    ensures fresh(dst) && dst[..] == src[..]
  {
    dst := new Scalar[src.Length];
    var i := 0;
    while i < src.Length
      invariant 0 <= i <= src.Length
      invariant forall k :: 0 <= k < i ==> dst[k] == src[k]
    {
      dst[i] := src[i];
      i := i + 1;
    }
  }

  /** An arena buffer of length `n` filled with `v` (`alloc_slice_fill_copy`). */
  method AllocFill(n: nat, v: Scalar) returns (a: array<Scalar>)
    ensures fresh(a) && a.Length == n && forall i :: 0 <= i < n ==> a[i] == v
  {
    a := new Scalar[n](_ => v);
  }

  /** `g_in_fold` / `g_out_bar_fold`: a buffer filled with alpha, then the key columns folded in. */
  method AllocKeyFold(alpha: Scalar, beta: Scalar, cols: seq<seq<Scalar>>, n: nat) returns (fold: array<Scalar>)
    ensures fresh(fold) && fold[..] == KeyFold(alpha, beta, cols, n)
  {
    fold := AllocFill(n, alpha);
    FoldColumns(fold, 1.0, beta, cols);
    assert forall i :: 0 <= i < n ==> fold[i] == KeyFold(alpha, beta, cols, n)[i];
  }

  /** `sum_in_fold`: a buffer filled with one, then the sum columns folded in with multiplier beta. */
  method AllocSumInFold(beta: Scalar, sumIn: seq<seq<Scalar>>, n: nat) returns (fold: array<Scalar>)
    ensures fresh(fold) && fold[..] == SumInFold(beta, sumIn, n)
  {
    fold := AllocFill(n, 1.0);
    FoldColumns(fold, beta, beta, sumIn);
    assert forall i :: 0 <= i < n ==> fold[i] == SumInFold(beta, sumIn, n)[i];
  }

  /**
   * `sum_out_bar_fold`: a zero buffer, the count column cast into its first m
   * rows, then the sum columns folded in with multiplier beta.
   */
  method AllocSumOutBarFold(beta: Scalar, sumOut: seq<seq<Scalar>>, countOut: seq<int>, n: nat)
    returns (fold: array<Scalar>)
    requires |countOut| <= n
    ensures fresh(fold) && fold[..] == SumOutBarFold(beta, sumOut, countOut, n)
  {
    fold := AllocFill(n, 0.0);
    SliceCastMut(countOut, fold);
    assert forall i :: 0 <= i < n ==> fold[i] == PadCount(countOut, i);
    FoldColumns(fold, beta, beta, sumOut);
    assert forall i :: 0 <= i < n ==> fold[i] == SumOutBarFold(beta, sumOut, countOut, n)[i];
  }

  /** `g_in_star`: a copy of the input key folds, batch-inverted. */
  method AllocInStar(fold: array<Scalar>) returns (star: array<Scalar>)
    ensures fresh(star) && star[..] == InStar(fold[..])
  {
    star := CopySlice(fold);
    BatchInversion(star, 0, star.Length);
  }

  /**
   * `g_out_star`: a copy of the output key folds whose padding rows (from m
   * on) are alpha^-1 and whose first m rows are batch-inverted.
   */
  method AllocOutStar(alpha: Scalar, fold: array<Scalar>, m: nat) returns (star: array<Scalar>)
    requires alpha != 0.0 && m <= fold.Length
    ensures fresh(star) && star[..] == OutStar(alpha, fold[..], m)
  {
    star := CopySlice(fold);
    FillFrom(star, m, Inv(alpha));
    BatchInversion(star, 0, m);
  }

  /**
   * `prove_group_by`: folds the key and sum columns with alpha and beta,
   * batch-inverts the key folds into `g_in_star` and `g_out_star` (alpha^-1 on
   * the padding rows), produces the two witnesses and registers ZeroSum,
   * Identity, Identity. Alpha is never zero (the source aborts otherwise) and
   * the output has no more rows than the table.
   */
  method ProveGroupBy(builder: ProofBuilder, alpha: Scalar, beta: Scalar,
                      gIn: seq<seq<Scalar>>, sumIn: seq<seq<Scalar>>, selIn: seq<bool>,
                      gOut: seq<seq<Scalar>>, sumOut: seq<seq<Scalar>>, countOut: seq<int>)
    requires alpha != 0.0
    requires |countOut| <= builder.tableLength
    modifies builder
    ensures builder.intermediateMles == old(builder.intermediateMles)
      + GroupByWitnesses(alpha, beta, gIn, gOut, |countOut|, builder.tableLength)
    ensures builder.subpolynomials == old(builder.subpolynomials)
      + GroupBySubpolynomials(alpha, beta, gIn, sumIn, selIn, gOut, sumOut, countOut, builder.tableLength)
    ensures builder.postResultChallenges == old(builder.postResultChallenges)
  {
    var n := builder.tableLength;
    var m := |countOut|;
    var gInFold := AllocKeyFold(alpha, beta, gIn, n);
    var gOutBarFold := AllocKeyFold(alpha, beta, gOut, n);
    var sumInFold := AllocSumInFold(beta, sumIn, n);
    var sumOutBarFold := AllocSumOutBarFold(beta, sumOut, countOut, n);

    var gInStar := AllocInStar(gInFold);
    var gOutStar := AllocOutStar(alpha, gOutBarFold, m);

    builder.ProduceIntermediateMle(gInStar[..]);
    builder.ProduceIntermediateMle(gOutStar[..]);
    builder.ProduceSumcheckSubpolynomial(ZeroSum,
      [Term(1.0, [gInStar[..], BoolColumn(selIn), sumInFold[..]]), Term(-1.0, [gOutStar[..], sumOutBarFold[..]])]);
    builder.ProduceSumcheckSubpolynomial(Identity, [Term(1.0, [gInStar[..], gInFold[..]]), Term(-1.0, [])]);
    builder.ProduceSumcheckSubpolynomial(Identity, [Term(1.0, [gOutStar[..], gOutBarFold[..]]), Term(-1.0, [])]);
  }

  /**
   * `prover_evaluate`, given the selection mask and the evaluated input columns
   * (from the sub-nodes) and the aggregation of them: consumes alpha then beta
   * and runs `prove_group_by`.
   */
  method ProverEvaluate(node: GroupByExpr, builder: ProofBuilder, selection: seq<bool>,
                        groupByColumns: seq<seq<Scalar>>, sumColumns: seq<seq<Scalar>>, agg: AggregatedColumns)
    requires |builder.postResultChallenges| >= 2 && builder.postResultChallenges[0] != 0.0
    requires |agg.countColumn| <= builder.tableLength
    modifies builder
    ensures var alpha, beta := old(builder.postResultChallenges)[0], old(builder.postResultChallenges)[1];
      && builder.postResultChallenges == old(builder.postResultChallenges)[2..]
      && builder.intermediateMles == old(builder.intermediateMles)
           + GroupByWitnesses(alpha, beta, groupByColumns, agg.groupByColumns, |agg.countColumn|, builder.tableLength)
      && builder.subpolynomials == old(builder.subpolynomials)
           + GroupBySubpolynomials(alpha, beta, groupByColumns, sumColumns, selection,
                                   agg.groupByColumns, agg.sumColumns, agg.countColumn, builder.tableLength)
  {
    var alpha := builder.ConsumePostResultChallenge();
    var beta := builder.ConsumePostResultChallenge();
    ProveGroupBy(builder, alpha, beta, groupByColumns, sumColumns, selection,
                 agg.groupByColumns, agg.sumColumns, agg.countColumn);
  }

  // --------------------------------------------------------------- verify pass

  /** `(g_in_evals, sum_in_evals, sel_in_eval)`. */
  datatype InputEvaluations = InputEvaluations(groupBy: seq<Scalar>, sums: seq<Scalar>, selection: Scalar)

  /** `(g_out_evals, sum_out_evals, count_out_eval)`. */
  datatype OutputEvaluations = OutputEvaluations(groupBy: seq<Scalar>, sums: seq<Scalar>, count: Scalar)

  /** `g_in_fold_eval`, `g_out_bar_fold_eval`: `alpha * one_eval + fold_vals(beta, evals)`. */
  function KeyFoldEvaluation(one: Scalar, alpha: Scalar, beta: Scalar, evals: seq<Scalar>): Scalar
  {
    alpha * one + FoldVals(beta, evals)
  }

  /** `sum_in_fold_eval`: `one_eval + beta * fold_vals(beta, sum_in_evals)`. */
  function SumInFoldEvaluation(one: Scalar, beta: Scalar, evals: seq<Scalar>): Scalar
  {
    one + beta * FoldVals(beta, evals)
  }

  /** `sum_out_bar_fold_eval`: `count_out_eval + beta * fold_vals(beta, sum_out_evals)`. */
  function SumOutBarFoldEvaluation(count: Scalar, beta: Scalar, evals: seq<Scalar>): Scalar
  {
    count + beta * FoldVals(beta, evals)
  }

  /** `g_in_star * sel * sum_in_fold - g_out_star * sum_out_bar_fold` on evaluations. */
  function ZeroSumEvaluation(gInStar: Scalar, sel: Scalar, sumInFold: Scalar, gOutStar: Scalar, sumOutBarFold: Scalar): Scalar
  {
    gInStar * sel * sumInFold - gOutStar * sumOutBarFold
  }

  /** `star * fold - one_eval` on evaluations. */
  function IdentityEvaluation(one: Scalar, star: Scalar, fold: Scalar): Scalar
  {
    star * fold - one
  }

  /**
   * The three scalar identities `verify_group_by` registers, in order: the
   * ZeroSum check and the two inverse checks scaled by the random selector.
   * The folds are those of the prover, replayed on single evaluations.
   */
  function VerifierIdentityEvaluations(one: Scalar, rand: Scalar, alpha: Scalar, beta: Scalar,
                                       inputs: InputEvaluations, outputs: OutputEvaluations,
                                       gInStar: Scalar, gOutStar: Scalar): (evals: seq<Scalar>)
    ensures |evals| == 3
  {
    var gInFold := KeyFoldEvaluation(one, alpha, beta, inputs.groupBy);
    var gOutBarFold := KeyFoldEvaluation(one, alpha, beta, outputs.groupBy);
    var sumInFold := SumInFoldEvaluation(one, beta, inputs.sums);
    var sumOutBarFold := SumOutBarFoldEvaluation(outputs.count, beta, outputs.sums);
    [ ZeroSumEvaluation(gInStar, inputs.selection, sumInFold, gOutStar, sumOutBarFold),
      rand * IdentityEvaluation(one, gInStar, gInFold),
      rand * IdentityEvaluation(one, gOutStar, gOutBarFold) ]
  }

  /**
   * `verify_group_by`: consumes the claimed `g_in_star` then `g_out_star`
   * evaluations and registers the three identity evaluations.
   */
  method VerifyGroupBy(builder: VerificationBuilder, alpha: Scalar, beta: Scalar,
                       inputs: InputEvaluations, outputs: OutputEvaluations)
    returns (r: Result<Unit, ProofError>)
    requires |builder.intermediateMleEvaluations| >= 2
    modifies builder
    ensures r == Ok(Unit)
    ensures builder.intermediateMleEvaluations == old(builder.intermediateMleEvaluations)[2..]
    ensures builder.subpolynomialEvaluations == old(builder.subpolynomialEvaluations)
      + VerifierIdentityEvaluations(builder.oneEvaluation, builder.randomEvaluation, alpha, beta, inputs, outputs,
                                    old(builder.intermediateMleEvaluations)[0], old(builder.intermediateMleEvaluations)[1])
    ensures builder.resultMleEvaluations == old(builder.resultMleEvaluations)
    ensures builder.postResultChallenges == old(builder.postResultChallenges)
  {
    var gInStar := builder.ConsumeIntermediateMle();
    var gOutStar := builder.ConsumeIntermediateMle();
    var evals := VerifierIdentityEvaluations(builder.oneEvaluation, builder.randomEvaluation, alpha, beta,
                                             inputs, outputs, gInStar, gOutStar);
    builder.ProduceSumcheckSubpolynomialEvaluation(evals[0]);
    builder.ProduceSumcheckSubpolynomialEvaluation(evals[1]);
    builder.ProduceSumcheckSubpolynomialEvaluation(evals[2]);
    assert [evals[0]] + [evals[1]] + [evals[2]] == evals;
    r := Ok(Unit);
  }

  /** `repeat_with(|| builder.consume_result_mle()).take(k)`. */
  method ConsumeResultMles(builder: VerificationBuilder, k: nat) returns (evals: seq<Scalar>)
    requires k <= |builder.resultMleEvaluations|
    modifies builder
    ensures evals == old(builder.resultMleEvaluations)[..k]
    ensures builder.resultMleEvaluations == old(builder.resultMleEvaluations)[k..]
    ensures builder.intermediateMleEvaluations == old(builder.intermediateMleEvaluations)
    ensures builder.postResultChallenges == old(builder.postResultChallenges)
    ensures builder.subpolynomialEvaluations == old(builder.subpolynomialEvaluations)
  {
    evals := [];
    var i := 0;
    while i < k
      invariant 0 <= i <= k
      invariant evals == old(builder.resultMleEvaluations)[..i]
      invariant builder.resultMleEvaluations == old(builder.resultMleEvaluations)[i..]
      invariant builder.intermediateMleEvaluations == old(builder.intermediateMleEvaluations)
      invariant builder.postResultChallenges == old(builder.postResultChallenges)
      invariant builder.subpolynomialEvaluations == old(builder.subpolynomialEvaluations)
    {
      var e := builder.ConsumeResultMle();
      evals := evals + [e];
      i := i + 1;
    }
  }

  /**
   * `collect::<Result<Vec<_>, _>>()` over the children's evaluations: every
   * value in order, or the first error met.
   */
  function CollectEvals(rs: seq<Result<Scalar, ProofError>>): (r: Result<seq<Scalar>, ProofError>)
    ensures r.Ok? <==> forall i :: 0 <= i < |rs| ==> rs[i].Ok?
    ensures r.Ok? ==> |r.value| == |rs| && forall i :: 0 <= i < |rs| ==> rs[i] == Ok(r.value[i])
    ensures r.Err? ==> exists i :: 0 <= i < |rs| && rs[i] == Err(r.error) && forall k :: 0 <= k < i ==> rs[k].Ok?
  {
    if |rs| == 0 then Ok([])
    else if rs[0].Err? then Err(rs[0].error)
    else
      match CollectEvals(rs[1..])
      case Err(e) =>
        ghost var i :| 0 <= i < |rs[1..]| && rs[1..][i] == Err(e) && forall k :: 0 <= k < i ==> rs[1..][k].Ok?;
        assert rs[i + 1] == Err(e) && forall k :: 0 <= k < i + 1 ==> rs[k].Ok? by {
          forall k | 0 <= k < i + 1 ensures rs[k].Ok? {
            if k > 0 { assert rs[k] == rs[1..][k - 1]; }
          }
        }
        Err(e)
      case Ok(vs) =>
        assert forall i :: 1 <= i < |rs| ==> rs[i] == rs[1..][i - 1];
        Ok([rs[0].value] + vs)
  }

  /** The where clause's and every input column's verify pass succeeded. */
  predicate ChildEvalsOk(whereEval: Result<Scalar, ProofError>, groupByEvals: seq<Result<Scalar, ProofError>>,
                         aggregateEvals: seq<Result<Scalar, ProofError>>)
  {
    whereEval.Ok? && CollectEvals(groupByEvals).Ok? && CollectEvals(aggregateEvals).Ok?
  }

  /**
   * `verifier_evaluate`, given the results of the where clause's and the input
   * columns' own verify passes: the first of those that failed, taken in the
   * source's order (where clause, group-by columns, sum columns), is returned
   * before anything else happens; then it fails with "invalid indexes" when the
   * proof carries no index evaluation; otherwise consumes the |g| + |s| + 1
   * result evaluations in production order, then alpha and beta, and runs
   * `verify_group_by`.
   */
  method VerifierEvaluate(node: GroupByExpr, builder: VerificationBuilder, whereEval: Result<Scalar, ProofError>,
                          groupByEvals: seq<Result<Scalar, ProofError>>, aggregateEvals: seq<Result<Scalar, ProofError>>)
    returns (r: Result<Unit, ProofError>)
    requires |groupByEvals| == |node.groupByExprs| && |aggregateEvals| == |node.sumExpr|
    requires ChildEvalsOk(whereEval, groupByEvals, aggregateEvals) && builder.resultIndexesEvaluation.Some? ==>
      && |builder.resultMleEvaluations| >= |node.groupByExprs| + |node.sumExpr| + 1
      && |builder.postResultChallenges| >= 2
      && |builder.intermediateMleEvaluations| >= 2
    modifies builder
    ensures whereEval.Err? ==> r == Err(whereEval.error)
    ensures whereEval.Ok? && CollectEvals(groupByEvals).Err? ==> r == Err(CollectEvals(groupByEvals).error)
    ensures whereEval.Ok? && CollectEvals(groupByEvals).Ok? && CollectEvals(aggregateEvals).Err? ==>
      r == Err(CollectEvals(aggregateEvals).error)
    ensures r.Err? ==>
      && builder.resultMleEvaluations == old(builder.resultMleEvaluations)
      && builder.intermediateMleEvaluations == old(builder.intermediateMleEvaluations)
      && builder.postResultChallenges == old(builder.postResultChallenges)
      && builder.subpolynomialEvaluations == old(builder.subpolynomialEvaluations)
    ensures ChildEvalsOk(whereEval, groupByEvals, aggregateEvals) && builder.resultIndexesEvaluation.None? ==>
      r == Err(VerificationError("invalid indexes"))
    ensures ChildEvalsOk(whereEval, groupByEvals, aggregateEvals) && builder.resultIndexesEvaluation.Some? ==>
      var g, s := |node.groupByExprs|, |node.sumExpr|;
      var results := old(builder.resultMleEvaluations);
      var witnesses := old(builder.intermediateMleEvaluations);
      var challenges := old(builder.postResultChallenges);
      && r == Ok(Unit)
      && builder.resultMleEvaluations == results[g + s + 1..]
      && builder.postResultChallenges == challenges[2..]
      && builder.intermediateMleEvaluations == witnesses[2..]
      && builder.subpolynomialEvaluations == old(builder.subpolynomialEvaluations)
         + VerifierIdentityEvaluations(builder.oneEvaluation, builder.randomEvaluation, challenges[0], challenges[1],
                                       InputEvaluations(CollectEvals(groupByEvals).value,
                                                        CollectEvals(aggregateEvals).value, whereEval.value),
                                       OutputEvaluations(results[..g], results[g..g + s], results[g + s]),
                                       witnesses[0], witnesses[1])
  {
    if whereEval.Err? {
      return Err(whereEval.error);
    }
    var groupByCollected := CollectEvals(groupByEvals);
    if groupByCollected.Err? {
      return Err(groupByCollected.error);
    }
    var aggregateCollected := CollectEvals(aggregateEvals);
    if aggregateCollected.Err? {
      return Err(aggregateCollected.error);
    }
    if builder.resultIndexesEvaluation.None? {
      return Err(VerificationError("invalid indexes"));
    }
    ghost var results := builder.resultMleEvaluations;
    var g, s := |node.groupByExprs|, |node.sumExpr|;
    var groupByResultEvals := ConsumeResultMles(builder, g);
    var sumResultEvals := ConsumeResultMles(builder, s);
    var countEval := builder.ConsumeResultMle();
    assert results[g..][..s] == results[g..g + s];
    var alpha := builder.ConsumePostResultChallenge();
    var beta := builder.ConsumePostResultChallenge();
    r := VerifyGroupBy(builder, alpha, beta,
                       InputEvaluations(groupByCollected.value, aggregateCollected.value, whereEval.value),
                       OutputEvaluations(groupByResultEvals, sumResultEvals, countEval));
    // Group-by keys are not checked for uniqueness here; see the node's documentation.
  }
}
