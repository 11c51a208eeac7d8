# Group-by proofs, query-context validation and decimals of Proof of SQL

This project is a Dafny model of three parts of a SQL engine that answers a
query together with a proof that the answer is right.

- **The group-by/sum/count proof node** (`GroupByExprs`, `GroupByProofs`,
  `SliceOps`, `ProofBuilders`). It covers
  `SELECT g_1..g_M, SUM(s_1)..SUM(s_N), COUNT(*) ... WHERE ... GROUP BY g_1..g_M`.
  The node has four passes:
  - The count pass declares what the node uses.
  - The result pass lays out the answer columns.
  - The prove pass folds the key columns and the sum columns with two
    challenges α and β. It batch-inverts the key folds into the witness
    vectors `g_in_star` and `g_out_star`. It then registers one ZeroSum
    identity and two Identity subpolynomials.
  - The verify pass replays the same folding on claimed evaluations.

  The prove pass is imperative: arena buffers become fresh `array`s, filled
  and inverted in place. The builders are classes.

  What is proved:
  - the formulas of the folds and of the padding rows;
  - that both Identity subpolynomials vanish when no fold is zero;
  - completeness of the ZeroSum identity whenever the output rows are a
    correct aggregation of the selected input rows;
  - that the verifier's per-row replay equals the prover's subpolynomials
    row by row;
  - the order in which both sides produce and consume witnesses and
    challenges.
- **The query context** (`QueryContexts`). This is the state the SQL
  conversion fills in while it walks a parsed query. `ContextState` is its
  value, and each update is a member function of it. The class
  `QueryContext` keeps the same fields, and its methods are proved to move
  the fields exactly as those functions say. The model states these rules of
  the source:
  - no nested aggregation;
  - every aggregation and every aliased result references a column;
  - the table is set once;
  - group-by membership of result columns;
  - result aliases are unique;
  - order-by names an alias.

  It also models the shape check that lowers a context to a `GroupByExpr`.
- **Intermediate decimals** (`Decimals`). A decimal is an unscaled integer
  paired with a scale. The model covers its precision, its scale, rescaling
  to a requested precision and scale, and the checked conversions to `i64`
  and `i128`.

The field of scalars is modelled as Dafny's `real`. It is an exact field, and
its inverse is defined everywhere except at zero.

## Model

| member | source | states |
|---|---|---|
| GroupByExprs.OwnCounts | crates/proof-of-sql/src/sql/ast/group_by_expr.rs:76-86 | The node itself declares \|group_by\|+\|sum\|+1 result columns, no anchored MLE, 2 intermediate MLEs, 3 subpolynomials, degree 3 and 2 post-result challenges |
| GroupByExprs.IncludeChildren | crates/proof-of-sql/src/sql/ast/group_by_expr.rs:74-81 | Counting the child expressions adds their combined totals plus one result column per child |
| GroupByExprs.Count | crates/proof-of-sql/src/sql/ast/group_by_expr.rs:68-88 | A where-clause error is returned with the builder untouched. Otherwise the totals become the old totals combined with the where clause, every child and the node's own counts |
| GroupByExprs.GetColumnResultFields | crates/proof-of-sql/src/sql/ast/group_by_expr.rs:151-161 | The fields are the group-by fields in order, then the sum aliases, then the count alias typed BigInt: \|group_by\|+\|sum\|+1 fields |
| GroupByExprs.GetColumnReferences | crates/proof-of-sql/src/sql/ast/group_by_expr.rs:163-176 | The references are exactly the group-by columns, the summed columns and the where clause's references |
| GroupByExprs.ResultColumns | crates/proof-of-sql/src/sql/ast/group_by_expr.rs:216-222 | The answer columns are the group-by columns, then the sum columns, then the count column |
| GroupByExprs.ResultEvaluate | crates/proof-of-sql/src/sql/ast/group_by_expr.rs:181-224 | Given one aggregated column per group-by and per sum expression of the node, the index set becomes Dense(0, m), where m is the count column's length. The answer columns are appended in order, exactly as many as the count pass declares, and 2 more challenges are requested |
| GroupByExprs.ResultColumnsMatchFields | crates/proof-of-sql/src/sql/ast/group_by_expr.rs:151-224 | For the same node, the result pass produces as many columns as the count pass declares and `get_column_result_fields` lists, and column k is described by field k: the group-by keys, the sums under their aliases, then the BigInt count |
| GroupByExprs.GroupBySubpolynomials | crates/proof-of-sql/src/sql/ast/group_by_expr.rs:355-402 | Three subpolynomials, of kinds ZeroSum, Identity, Identity in that order |
| GroupByExprs.AllocKeyFold | crates/proof-of-sql/src/sql/ast/group_by_expr.rs:326-332 | A fresh buffer filled with α, with the key columns folded in, holds the key fold of every row |
| GroupByExprs.AllocSumInFold | crates/proof-of-sql/src/sql/ast/group_by_expr.rs:334-336 | A fresh buffer of ones, with β times the sum fold added, holds `sum_in_fold` |
| GroupByExprs.AllocSumOutBarFold | crates/proof-of-sql/src/sql/ast/group_by_expr.rs:338-341 | A zero buffer receives the cast counts, then β times the output sum fold, giving `sum_out_bar_fold` |
| GroupByExprs.AllocInStar | crates/proof-of-sql/src/sql/ast/group_by_expr.rs:343-345 | A copy of the input key fold, batch-inverted, is `g_in_star` |
| GroupByExprs.AllocOutStar | crates/proof-of-sql/src/sql/ast/group_by_expr.rs:347-350 | A copy of the output key fold, with tail m..n set to α⁻¹ and head 0..m batch-inverted, is `g_out_star` |
| GroupByExprs.ProveGroupBy | crates/proof-of-sql/src/sql/ast/group_by_expr.rs:315-403 | The builder receives `g_in_star` then `g_out_star` as intermediate MLEs, then the three subpolynomials. No challenge is consumed |
| GroupByExprs.ProverEvaluate | crates/proof-of-sql/src/sql/ast/group_by_expr.rs:228-271 | α is consumed before β, and the group-by witnesses and subpolynomials are produced from those two challenges |
| GroupByExprs.VerifierIdentityEvaluations | crates/proof-of-sql/src/sql/ast/group_by_expr.rs:296-310 | The verifier emits three evaluations: the ZeroSum one, then the two Identity ones scaled by the random evaluation |
| GroupByExprs.VerifyGroupBy | crates/proof-of-sql/src/sql/ast/group_by_expr.rs:274-313 | Consumes exactly two intermediate evaluations (`g_in_star` then `g_out_star`), appends the three identity evaluations and succeeds |
| GroupByExprs.ConsumeResultMles | crates/proof-of-sql/src/sql/ast/group_by_expr.rs:124-129 | Takes the first k result evaluations, in order, and nothing else |
| GroupByExprs.CollectEvals | crates/proof-of-sql/src/sql/ast/group_by_expr.rs:107-116 | Collecting the children's evaluations gives every value in order exactly when none failed, and otherwise the first error in order |
| GroupByExprs.VerifierEvaluate | crates/proof-of-sql/src/sql/ast/group_by_expr.rs:99-149 | The where clause's error comes first, then the first failing group-by column, then the first failing sum column, each before anything is consumed. With all of them Ok and no index evaluation, the result is `VerificationError("invalid indexes")` and nothing is consumed. Otherwise it consumes \|group_by\|+\|sum\|+1 result evaluations, then α and β, then the two witnesses, and appends the three identity evaluations |
| SliceOps.FoldColumns | crates/proof-of-sql/src/sql/ast/group_by_expr.rs:326-341 | `fold_columns(res, mul, β, cols)` adds mul·Σ_j β^j·cols[j][i] to every res[i], reading short columns as zero |
| SliceOps.FoldRow | crates/proof-of-sql/src/sql/ast/group_by_expr.rs:284-291 | The running power-of-β loop computes `fold_vals` of one row |
| SliceOps.SliceCastMut | crates/proof-of-sql/src/sql/ast/group_by_expr.rs:339-340 | The first \|src\| entries of dst become the casts of src, and the rest are unchanged |
| SliceOps.BatchInversion | crates/proof-of-sql/src/sql/ast/group_by_expr.rs:343-350 | Each entry in the range is replaced by its inverse (zero stays zero), and entries outside it are unchanged |
| SliceOps.FillFrom | crates/proof-of-sql/src/sql/ast/group_by_expr.rs:347-349 | The tail from lo is set to v, and the head is unchanged |
| ProofBuilders.CombineAssociative | crates/proof-of-sql/src/sql/ast/group_by_expr.rs:73-86 | Accumulating counts is associative, so the order in which children are counted can be regrouped |
| ProofBuilders.CountBuilder.Include | crates/proof-of-sql/src/sql/ast/group_by_expr.rs:73-79 | A child's count pass adds its totals to the builder's |
| ProofBuilders.CountBuilder.CountDegree | crates/proof-of-sql/src/sql/ast/group_by_expr.rs:85-85 | The declared degree becomes the maximum of the old one and the new one |
| ProofBuilders.ResultBuilder.SetResultIndexes | crates/proof-of-sql/src/sql/ast/group_by_expr.rs:214-214 | Sets the index set once, leaving columns and challenges alone |
| ProofBuilders.ProofBuilder.ConsumePostResultChallenge | crates/proof-of-sql/src/sql/ast/group_by_expr.rs:260-261 | Challenges are consumed from the front of the queue |
| ProofBuilders.VerificationBuilder.ConsumeIntermediateMle | crates/proof-of-sql/src/sql/ast/group_by_expr.rs:293-294 | Intermediate evaluations are consumed from the front of the queue, and nothing else changes |
| GroupByProofs.InputFoldsAt | crates/proof-of-sql/src/sql/ast/group_by_expr.rs:326-336 | g_in_fold[i] = α + Σ_j β^j·g_in[j][i] and sum_in_fold[i] = 1 + Σ_j β^(j+1)·sum_in[j][i], for every i < n |
| GroupByProofs.ShiftedFoldIsScaledFold | crates/proof-of-sql/src/sql/ast/group_by_expr.rs:334-336 | β·fold_vals(β, v) weights entry j by β^(j+1) |
| GroupByProofs.NoGroupByKeyFold | crates/proof-of-sql/src/sql/ast/group_by_expr.rs:326-328 | With no group-by columns every key fold is α |
| GroupByProofs.OutputSumFoldAt | crates/proof-of-sql/src/sql/ast/group_by_expr.rs:338-341 | For i < m, sum_out_bar_fold[i] = count_out[i] + Σ_j β^(j+1)·sum_out[j][i] |
| GroupByProofs.PaddingRows | crates/proof-of-sql/src/sql/ast/group_by_expr.rs:331-350 | For padding rows m ≤ i < n: g_out_bar_fold[i] = α, sum_out_bar_fold[i] = 0 and g_out_star[i] = α⁻¹ |
| GroupByProofs.IdentityRowVanishes | crates/proof-of-sql/src/sql/ast/group_by_expr.rs:377-402 | At a row whose folds are nonzero, g_in_star·g_in_fold = 1, g_out_star·g_out_bar_fold = 1, and both Identity subpolynomials are zero |
| GroupByProofs.IdentityRowsVanish | crates/proof-of-sql/src/sql/ast/group_by_expr.rs:343-402 | With α ≠ 0 and no fold zero, both inverse identities hold and both Identity subpolynomials vanish at every row i < n |
| GroupByProofs.HitsExactlyOnce | crates/proof-of-sql/src/sql/ast/group_by_expr.rs:253-258 | Under a correct aggregation, a selected row lies in exactly one output group and an unselected row lies in none |
| GroupByProofs.CountsAddUpToSelected | crates/proof-of-sql/src/sql/ast/group_by_expr.rs:253-258 | Under a correct aggregation, the output counts add up to the number of selected rows |
| GroupByProofs.WitnessesConsistent | crates/proof-of-sql/src/sql/ast/group_by_expr.rs:343-350 | A selected row and the output row of its group carry the same witness weight 1/(α + key fold) |
| GroupByProofs.ZeroSumSplits | crates/proof-of-sql/src/sql/ast/group_by_expr.rs:355-375 | The ZeroSum row sum is the input side minus the output side |
| GroupByProofs.SidesBalance | crates/proof-of-sql/src/sql/ast/group_by_expr.rs:355-375 | For any weights that agree within each group, a correct aggregation makes the input side equal the output side |
| GroupByProofs.ZeroSumCompleteness | crates/proof-of-sql/src/sql/ast/group_by_expr.rs:355-375 | If α ≠ 0, the first m output rows are the distinct keys of the selected rows, and those rows carry their groups' counts and sums, then Σ_i (g_in_star·sel·sum_in_fold − g_out_star·sum_out_bar_fold) = 0. No fold needs to be nonzero |
| GroupByProofs.SubpolynomialDegrees | crates/proof-of-sql/src/sql/ast/group_by_expr.rs:355-402 | The three subpolynomials have degrees 3, 2 and 2, so the largest equals the degree the count pass declares |
| GroupByProofs.ReplayRow | crates/proof-of-sql/src/sql/ast/group_by_expr.rs:284-310 | At any row, the verifier's formulas applied to that row's column entries and witness entries equal the row values of the three subpolynomials, for any witness vectors |
| GroupByProofs.VerifierReplaysProver | crates/proof-of-sql/src/sql/ast/group_by_expr.rs:296-310 | The verifier's three evaluations at a row equal the prover's ZeroSum row value and, scaled by the random evaluation, the two Identity row values |
| QueryContexts.IdentLeTotal | crates/proof-of-sql/src/sql/parse/query_context.rs:153-163 | The identifier order used to pick the least result column is total |
| QueryContexts.LeastIsUnique | crates/proof-of-sql/src/sql/parse/query_context.rs:153-163 | A set has at most one least identifier |
| QueryContexts.UniqueCountsAreDistinct | crates/proof-of-sql/src/sql/parse/query_context.rs:183-193 | Every alias occurring exactly once is the same as all aliases being pairwise distinct |
| QueryContexts.ContextState.SetTableRef | crates/proof-of-sql/src/sql/parse/query_context.rs:37-40 | Legal only while no table is set. It sets the table and nothing else |
| QueryContexts.ContextState.ToggleResultScope | crates/proof-of-sql/src/sql/parse/query_context.rs:60-62 | Flips the result-scope flag and nothing else |
| QueryContexts.ContextState.CheckColRefCounter | crates/proof-of-sql/src/sql/parse/query_context.rs:114-122 | Succeeds exactly when a column was referenced since the last snapshot. Otherwise it fails with the "at least one column" error |
| QueryContexts.ContextState.SetInAggScope | crates/proof-of-sql/src/sql/parse/query_context.rs:68-92 | Entering inside an aggregation gives the nested-aggregation error and leaves the state unchanged. Entering otherwise sets the flag, bumps the aggregation counter and snapshots the column counter. Leaving clears the flag and succeeds exactly when a column was referenced inside |
| QueryContexts.ContextState.PushColumnRef | crates/proof-of-sql/src/sql/parse/query_context.rs:98-112 | The column counter grows by exactly one and the mapping records the column. Only in result scope is the column added to the result-column set |
| QueryContexts.ContextState.PushColumnRefs | crates/proof-of-sql/src/sql/parse/query_context.rs:98-102 | Pushing k columns grows the counter by k and leaves the flags, the snapshot, the aggregation counter, the results and the group-by list alone |
| QueryContexts.ContextState.PushAliasedResultExpr | crates/proof-of-sql/src/sql/parse/query_context.rs:124-135 | With no column referenced since the snapshot it fails and changes nothing. Otherwise it appends the expression and snapshots the counter |
| QueryContexts.ContextState.SetGroupByExprs | crates/proof-of-sql/src/sql/parse/query_context.rs:137-147 | Every group-by identifier joins the result-column set, nothing leaves it, and group-by is marked visited |
| QueryContexts.ContextState.IsInGroupByExprs | crates/proof-of-sql/src/sql/parse/query_context.rs:165-177 | Ok(false) with no group-by, inside an aggregation or outside result scope. Otherwise Ok(true) exactly for members, and `InvalidGroupByColumnRef` for any other column |
| QueryContexts.DefaultIsConsistent | crates/proof-of-sql/src/sql/parse/query_context.rs:17-34 | The fresh context satisfies the context invariant |
| QueryContexts.FirstResultColumnIsFirst | crates/proof-of-sql/src/sql/parse/query_context.rs:104-112 | The first result column outside aggregation is set once, to the first such column pushed, and never overwritten |
| QueryContexts.ResultColumnsReferenced | crates/proof-of-sql/src/sql/parse/query_context.rs:98-112 | After a run of pushes the result-column set is the old one, plus the pushed names when in result scope. Every pushed name is in the mapping |
| QueryContexts.PushColumnRefsConsistent | crates/proof-of-sql/src/sql/parse/query_context.rs:98-112 | Pushing columns preserves the context invariant |
| QueryContexts.AggregationNeedsColumn | crates/proof-of-sql/src/sql/parse/query_context.rs:68-92 | Entering an aggregation succeeds and entering again is the nested error. Entering, pushing k columns and leaving succeeds exactly when k > 0 |
| QueryContexts.ResultNeedsColumn | crates/proof-of-sql/src/sql/parse/query_context.rs:124-135 | After an aliased result, the next one can be pushed exactly when a column was referenced in between |
| QueryContexts.SetInAggScopeConsistent | crates/proof-of-sql/src/sql/parse/query_context.rs:68-92 | Entering or leaving an aggregation preserves the context invariant |
| QueryContexts.PushAliasedResultExprConsistent | crates/proof-of-sql/src/sql/parse/query_context.rs:124-135 | Pushing an aliased result preserves the context invariant |
| QueryContexts.SetGroupByExprsConsistent | crates/proof-of-sql/src/sql/parse/query_context.rs:137-147 | Setting the group-by list preserves the context invariant |
| QueryContexts.QueryContext.constructor | crates/proof-of-sql/src/sql/parse/query_context.rs:17-34 | A new context holds the default state, which is consistent |
| QueryContexts.QueryContext.SetTableRef | crates/proof-of-sql/src/sql/parse/query_context.rs:37-40 | Legal only while no table is set, and moves the fields as `ContextState.SetTableRef` |
| QueryContexts.QueryContext.GetTableRef | crates/proof-of-sql/src/sql/parse/query_context.rs:42-46 | Defined only once a table is set, and returns that table |
| QueryContexts.QueryContext.SetWhereExpr | crates/proof-of-sql/src/sql/parse/query_context.rs:48-50 | Replaces the where clause and nothing else |
| QueryContexts.QueryContext.SetSliceExpr | crates/proof-of-sql/src/sql/parse/query_context.rs:56-58 | Replaces the slice and nothing else |
| QueryContexts.QueryContext.SetOrderByExprs | crates/proof-of-sql/src/sql/parse/query_context.rs:149-151 | Replaces the order-by list and nothing else |
| QueryContexts.QueryContext.ToggleResultScope | crates/proof-of-sql/src/sql/parse/query_context.rs:60-62 | Moves the fields as `ContextState.ToggleResultScope` |
| QueryContexts.QueryContext.SetInAggScope | crates/proof-of-sql/src/sql/parse/query_context.rs:68-92 | Returns the result and moves the fields as `ContextState.SetInAggScope`, keeping the invariant |
| QueryContexts.QueryContext.PushColumnRef | crates/proof-of-sql/src/sql/parse/query_context.rs:98-112 | Moves the fields as `ContextState.PushColumnRef`, keeping the invariant |
| QueryContexts.QueryContext.PushAliasedResultExpr | crates/proof-of-sql/src/sql/parse/query_context.rs:124-135 | Returns the result and moves the fields as `ContextState.PushAliasedResultExpr`, keeping the invariant |
| QueryContexts.QueryContext.SetGroupByExprs | crates/proof-of-sql/src/sql/parse/query_context.rs:137-147 | The insertion loop moves the fields as `ContextState.SetGroupByExprs`, keeping the invariant |
| QueryContexts.QueryContext.IsInGroupByExprs | crates/proof-of-sql/src/sql/parse/query_context.rs:165-177 | Answers as `ContextState.IsInGroupByExprs` on the current fields |
| QueryContexts.QueryContext.GetAnyResultColumnRef | crates/proof-of-sql/src/sql/parse/query_context.rs:153-163 | `None` exactly when no result column was seen. Otherwise it returns the least result column's id and type from the mapping |
| QueryContexts.QueryContext.GetAliasedResultExprs | crates/proof-of-sql/src/sql/parse/query_context.rs:179-206 | Ok, with the results unchanged, exactly when the aliases are distinct and it is not the case that there is no group-by, an aggregation was seen and a bare result column was seen. A repeated alias gives `DuplicateResultAlias` of the first result, in order, whose alias occurs more than once. Otherwise the error is `InvalidGroupByColumnRef` of the first bare column, which in a consistent context is a result column |
| QueryContexts.QueryContext.GetOrderByExprs | crates/proof-of-sql/src/sql/parse/query_context.rs:208-220 | Ok, with the list unchanged, exactly when every order-by names a result alias. Otherwise `InvalidOrderBy` names an entry that does not |
| QueryContexts.GroupByColumns | crates/proof-of-sql/src/sql/parse/query_context.rs:258-271 | Ok exactly when every group-by identifier is mapped, with each mapped to its column expression in order. Otherwise `MissingColumn` of the first unmapped identifier |
| QueryContexts.SumColumn | crates/proof-of-sql/src/sql/parse/query_context.rs:307-333 | Recognises exactly the expressions `SUM(column)` and returns the column |
| QueryContexts.SumExprs | crates/proof-of-sql/src/sql/parse/query_context.rs:307-333 | Some exactly when every middle result is `SUM(column)`. Each entry is then the summed column, aliased and typed as its source column |
| QueryContexts.Middle | crates/proof-of-sql/src/sql/parse/query_context.rs:307-310 | The result expressions strictly between the group-by columns and the count column |
| QueryContexts.Lower | crates/proof-of-sql/src/sql/parse/query_context.rs:276-356 | Once the lookups succeed, a node is built exactly for the provable select-list shape, and it is the node the context describes |
| QueryContexts.TryFrom | crates/proof-of-sql/src/sql/parse/query_context.rs:246-357 | No where clause gives Ok(None), and a where-builder error or a missing table is returned as an error. An unmapped group-by identifier gives `MissingColumn`. Otherwise the result is Ok, and it is Some exactly for the shape: `FIRST(g_i)` in order, then sums of columns, then one count of a column. The node built has those columns in order, sum fields typed as their columns, the count alias, the table and the compiled where clause |
| Decimals.Pow10 | crates/proof-of-sql-parser/src/intermediate_decimal.rs:54-65 | Powers of ten are positive |
| Decimals.DigitCountBound | crates/proof-of-sql-parser/src/intermediate_decimal.rs:54-65 | A magnitude has at most p digits exactly when p ≥ 1 and it is below 10^p |
| Decimals.WithScale | crates/proof-of-sql-parser/src/intermediate_decimal.rs:60-60 | Rescaling yields the requested scale |
| Decimals.WithScaleKeepsValue | crates/proof-of-sql-parser/src/intermediate_decimal.rs:60-60 | Raising the scale never changes the value |
| Decimals.NormalizedSpec | crates/proof-of-sql-parser/src/intermediate_decimal.rs:77-83 | Normalization keeps the value, maps zero to (0, 0) and leaves no trailing zero in a nonzero unscaled integer |
| Decimals.Precision | crates/proof-of-sql-parser/src/intermediate_decimal.rs:43-45 | The digit count of the unscaled integer, cast to `u8` |
| Decimals.Scale | crates/proof-of-sql-parser/src/intermediate_decimal.rs:48-50 | The stored scale, cast to `i8` |
| Decimals.TryIntoBigintWithPrecisionAndScale | crates/proof-of-sql-parser/src/intermediate_decimal.rs:54-65 | Ok exactly when the value rescaled to `scale` has at most `precision` digits. The only error is `LossyCast` |
| Decimals.RescaleSpec | crates/proof-of-sql-parser/src/intermediate_decimal.rs:54-65 | For a target scale at least the value's scale: Ok exactly when precision ≥ 1 and the rescaled integer is below 10^precision in magnitude, and then the result at that scale has the decimal's value |
| Decimals.IsIntegerSpec | crates/proof-of-sql-parser/src/intermediate_decimal.rs:118-131 | A decimal is integral exactly when its value has no fractional part, and its integer value is then that value |
| Decimals.TryIntoI128 | crates/proof-of-sql-parser/src/intermediate_decimal.rs:118-131 | An Ok result equals the decimal's value |
| Decimals.TryIntoI64 | crates/proof-of-sql-parser/src/intermediate_decimal.rs:133-146 | An Ok result equals the decimal's value |
| Decimals.TryIntoI128Spec | crates/proof-of-sql-parser/src/intermediate_decimal.rs:118-131 | `LossyCast` exactly for a nonzero fractional part. `OutOfRange` exactly for an integral value outside [−2^127, 2^127−1] |
| Decimals.TryIntoI64Spec | crates/proof-of-sql-parser/src/intermediate_decimal.rs:133-146 | `LossyCast` exactly for a nonzero fractional part. `OutOfRange` exactly for an integral value outside [−2^63, 2^63−1] |
| Decimals.I128RoundTrip | crates/proof-of-sql-parser/src/intermediate_decimal.rs:86-131 | Converting an `i128` to a decimal and back returns it |
| Decimals.I64RoundTrip | crates/proof-of-sql-parser/src/intermediate_decimal.rs:94-146 | Converting an `i64` to a decimal and back returns it |
| Decimals.ParsedAccessorExamples | crates/proof-of-sql-parser/src/intermediate_decimal.rs:152-178 | 123.45 and 123.45000 both normalise to (12345, 2), with precision 5 and scale 2. 123.456 has precision 6 and scale 3 |
| Decimals.ConversionExamples | crates/proof-of-sql-parser/src/intermediate_decimal.rs:181-249 | Both bounds of i128 and i64 convert, one past the maximum is `OutOfRange`, 123.000 converts to 123, and 100.5 is `LossyCast` |

## Left out

- Scalars are exact rationals (`real`), not integers modulo the curve's prime. Every proved property uses field laws only, so it holds in any field. Reduction modulo the prime is not modelled.
- The helpers `fold_columns`, `fold_vals`, `batch_inversion` and `slice_cast_mut` are not part of this model. Each is written as the loop that achieves the formula its call site states. Batch inversion leaves zero at zero.
- `aggregate_columns`, the `ColumnExpr` and where-clause evaluations, and the child nodes' count, result, prove and verify passes are inputs to the group-by methods. `GroupByProofs.Aggregates` states what a correct aggregation must satisfy, as the hypothesis of completeness.
- Commitments and the commitment, data and metadata accessors are left out. So are `get_length` and `get_offset`, the sumcheck and Fiat-Shamir transcript, arena lifetimes, tracing, serde and Send/Sync bounds. Challenges and evaluations are parameters and queues.
- The interface trait of provable nodes is not modelled; the group-by methods follow its shape. The benchmark query strings are not modelled.
- No uniqueness check on group keys is added. The source leaves that check undone, and completeness takes uniqueness as a hypothesis instead.
- GroupByExprs.Count: the child column expressions enter as counts that cannot fail. Only the where clause's count may return an error. The where clause's count is an input, so whatever it counts before failing is not modelled: a failing where clause leaves the builder untouched here, while in the source it may already have added to it.
- GroupByExprs.VerifierEvaluate: requires enough queued result evaluations, challenges and intermediate evaluations, because the builder's behaviour on an empty queue is not part of this model. The where clause's and the columns' verify passes enter as results (value or error), so what they consume from the builder themselves is not modelled.
- GroupByExprs.ProveGroupBy: requires the output to have at most n rows, because the source's slice `g_out_star[m..]` panics otherwise. It also requires α ≠ 0, because `alpha.inv().expect(..)` panics otherwise.
- GroupByExprs.ProverEvaluate: requires the challenge it takes as α to be nonzero, for the same `alpha.inv().expect(..)`, and the output to have at most n rows, as ProveGroupBy does. It also requires two queued challenges, because the builder's behaviour on an empty queue is not part of this model.
- The where-expression builder is not part of this model. `QueryContexts.TryFrom` takes it as a function parameter.
- QueryContexts.TryFrom: the source panics when a sum column is missing from the mapping. The model makes that lookup a precondition (`SumLookupsSucceed`) rather than an outcome.
- QueryContexts.QueryContext.GetAnyResultColumnRef: the source panics when the least result column is unmapped. The model requires that column to be mapped, and it assumes the identifier order is lexicographic on characters.
- The context invariant `ContextState.Consistent` (`QueryContext.Valid`) is set up by the constructor and kept by the updates. The only contract that relies on it is the `InvalidGroupByColumnRef` clause of `GetAliasedResultExprs`.
- The `usize` counters of the query context are unbounded integers; overflow is not modelled.
- The plain getters of the query context (`get_where_expr`, `get_slice_expr`, `get_group_by_exprs`, `get_result_column_set`, `get_column_mapping`, `is_in_result_scope`) are the class's fields read directly.
- String parsing and `Display` of big decimals are library code and are left out. A parsed decimal enters as a `BigDecimal` pair and is normalised by `FromParsed`.
- Decimals.WithScale: a lowered scale divides, truncating toward zero. No property is proved for that case, because the library's rounding there is not visible. `Decimals.RescaleSpec` covers target scales at least the value's scale.
- Decimals.Precision and Decimals.Scale wrap on `u8` and `i8` overflow, as Rust's `as` casts do. Their contracts state only the in-range case.
- `ParseError` and `ConversionFailure` of the decimal error type are declared but never produced, because parsing is out of scope.
