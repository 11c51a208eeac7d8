/**
 * The query context the SQL conversion fills in while it walks a parsed query,
 * and the rules it enforces: no nested aggregation, every aggregation and
 * every aliased result references a column, the table is set once, result
 * columns outside aggregations are group-by columns, result aliases are unique
 * and order-by names a result alias. A context whose select list has the
 * group-by / sum / count shape lowers to a `GroupByExpr`.
 *
 * `ContextState` is the context's value; its member functions are the updates
 * the `QueryContext` methods make, so that properties of sequences of updates
 * can be stated as lemmas.
 */
module QueryContexts {
  import opened Wrappers
  import opened IntermediateAst
  import opened Database
  import opened GroupByExprs

  datatype ConversionError =
    | InvalidExpression(message: string)
    | InvalidGroupByColumnRef(column: string)
    | DuplicateResultAlias(alias: string)
    | InvalidOrderBy(name: string)
    | MissingColumn(column: Identifier, resourceId: ResourceId)

  const NestedAggregation := "nested aggregations are not supported"
  const NoColumnReferenced := "at least one column must be referenced in the result expression"
  const NoTableRef := "QueryContext has no table_ref"

  // ------------------------------------------------------- identifier order

  /** The order of identifiers: lexicographic on their characters. */
  predicate IdentLe(a: Identifier, b: Identifier)
    decreases |a|
  {
    |a| == 0 || (|b| > 0 && (a[0] < b[0] || (a[0] == b[0] && IdentLe(a[1..], b[1..]))))
  }

  lemma {:induction false} IdentLeTotal(a: Identifier, b: Identifier)
    ensures IdentLe(a, b) || IdentLe(b, a)
    decreases |a|
  {
    if |a| > 0 && |b| > 0 && a[0] == b[0] {
      IdentLeTotal(a[1..], b[1..]);
    }
  }

  lemma {:induction false} IdentLeTransitive(a: Identifier, b: Identifier, c: Identifier)
    requires IdentLe(a, b) && IdentLe(b, c)
    ensures IdentLe(a, c)
    decreases |a|
  {
    if |a| > 0 && a[0] == b[0] && b[0] == c[0] {
      IdentLeTransitive(a[1..], b[1..], c[1..]);
    }
  }

  lemma {:induction false} IdentLeAntisymmetric(a: Identifier, b: Identifier)
    requires IdentLe(a, b) && IdentLe(b, a)
    ensures a == b
    decreases |a|
  {
    if |a| > 0 {
      IdentLeAntisymmetric(a[1..], b[1..]);
      assert a == [a[0]] + a[1..] && b == [b[0]] + b[1..];
    }
  }

  /** `c` is the first of `cs` once they are sorted. */
  predicate IsLeast(c: Identifier, cs: set<Identifier>)
  {
    c in cs && forall d :: d in cs ==> IdentLe(c, d)
  }

  lemma LeastIsUnique(c: Identifier, d: Identifier, cs: set<Identifier>)
    requires IsLeast(c, cs) && IsLeast(d, cs)
    ensures c == d
  {
    IdentLeAntisymmetric(c, d);
  }

  // ------------------------------------------------------------ result list

  /** How many result expressions carry alias `a`. */
  function AliasCount(res: seq<AliasedResultExpr>, a: Identifier): (k: nat)
    ensures k <= |res|
  {
    if |res| == 0 then 0
    else AliasCount(res[..|res| - 1], a) + (if res[|res| - 1].alias == a then 1 else 0)
  }

  function Aliases(res: seq<AliasedResultExpr>): (as_: seq<Identifier>)
    ensures |as_| == |res|
    ensures forall i :: 0 <= i < |res| ==> as_[i] == res[i].alias
  {
    seq(|res|, i requires 0 <= i < |res| => res[i].alias)
  }

  /** No two result expressions share an alias. */
  predicate DistinctAliases(res: seq<AliasedResultExpr>)
  {
    forall i, j :: 0 <= i < j < |res| ==> res[i].alias != res[j].alias
  }

  lemma {:induction false} AliasCountZero(res: seq<AliasedResultExpr>, a: Identifier)
    requires forall i :: 0 <= i < |res| ==> res[i].alias != a
    ensures AliasCount(res, a) == 0
  {
    if |res| > 0 {
      AliasCountZero(res[..|res| - 1], a);
    }
  }

  lemma {:induction false} AliasCountOfMember(res: seq<AliasedResultExpr>, i: nat)
    requires i < |res|
    ensures AliasCount(res, res[i].alias) >= 1
    ensures AliasCount(res, res[i].alias) == 1 ==> forall j :: 0 <= j < |res| && j != i ==> res[j].alias != res[i].alias
  {
    var last := |res| - 1;
    if i < last {
      AliasCountOfMember(res[..last], i);
    } else {
      if AliasCount(res, res[i].alias) == 1 {
        forall j | 0 <= j < last
          ensures res[j].alias != res[i].alias
        {
          if res[j].alias == res[i].alias {
            AliasCountOfMember(res[..last], j);
          }
        }
      }
    }
  }

  lemma {:induction false} DistinctAliasCount(res: seq<AliasedResultExpr>, i: nat)
    requires i < |res| && DistinctAliases(res)
    ensures AliasCount(res, res[i].alias) == 1
  {
    var last := |res| - 1;
    if i < last {
      assert DistinctAliases(res[..last]);
      DistinctAliasCount(res[..last], i);
    } else {
      AliasCountZero(res[..last], res[i].alias);
    }
  }

  /** Every alias occurring exactly once is the same as no two aliases being equal. */
  lemma UniqueCountsAreDistinct(res: seq<AliasedResultExpr>)
    ensures (forall i :: 0 <= i < |res| ==> AliasCount(res, res[i].alias) == 1) <==> DistinctAliases(res)
  {
    if forall i :: 0 <= i < |res| ==> AliasCount(res, res[i].alias) == 1 {
      forall i, j | 0 <= i < j < |res|
        ensures res[i].alias != res[j].alias
      {
        AliasCountOfMember(res, i);
      }
    }
    if DistinctAliases(res) {
      forall i | 0 <= i < |res|
        ensures AliasCount(res, res[i].alias) == 1
      {
        DistinctAliasCount(res, i);
      }
    }
  }

  // ------------------------------------------------------------ the context

  datatype Step = Step(result: Result<Unit, ConversionError>, state: ContextState)

  datatype ContextState = ContextState(
    inAggScope: bool,
    aggCounter: nat,
    sliceExpr: Option<Slice>,
    colRefCounter: nat,
    table: Option<TableRef>,
    inResultScope: bool,
    hasVisitedGroupBy: bool,
    orderByExprs: seq<OrderBy>,
    fixedColRefCounter: nat,
    groupByExprs: seq<Identifier>,
    whereExpr: Option<Expression>,
    resultColumnSet: set<Identifier>,
    resAliasedExprs: seq<AliasedResultExpr>,
    columnMapping: map<Identifier, ColumnRef>,
    firstResultColOutAggScope: Option<Identifier>)
  {
    /**
     * What every reachable context satisfies: the snapshot never passes the
     * counter, being inside an aggregation means one was entered, and the
     * first result column seen outside an aggregation and every group-by
     * column are result columns.
     */
    predicate Consistent()
    {
      && fixedColRefCounter <= colRefCounter
      && (inAggScope ==> aggCounter > 0)
      && (firstResultColOutAggScope.Some? ==> firstResultColOutAggScope.value in resultColumnSet)
      && (forall g :: g in groupByExprs ==> g in resultColumnSet)
      && (groupByExprs != [] ==> hasVisitedGroupBy)
    }

    /** `set_table_ref`: legal only while no table is set. */
    function SetTableRef(t: TableRef): (s: ContextState)
      requires table.None?
      ensures s.table == Some(t)
      ensures s.(table := None) == this
    {
      this.(table := Some(t))
    }

    function ToggleResultScope(): (s: ContextState)
      ensures s.inResultScope == !inResultScope
      ensures s.(inResultScope := inResultScope) == this
    {
      this.(inResultScope := !inResultScope)
    }

    /** `check_col_ref_counter`: fails when no column was referenced since the snapshot. */
    function CheckColRefCounter(): (r: Result<Unit, ConversionError>)
      ensures r.Ok? <==> colRefCounter != fixedColRefCounter
      ensures r.Err? ==> r.error == InvalidExpression(NoColumnReferenced)
    {
      if colRefCounter == fixedColRefCounter then Err(InvalidExpression(NoColumnReferenced)) else Ok(Unit)
    }

    /**
     * `set_in_agg_scope`. Entering while inside an aggregation is the nested
     * aggregation error and changes nothing; entering otherwise counts the
     * aggregation and snapshots the column counter. Leaving (legal only inside
     * one) clears the flag first and then fails when no column was referenced.
     */
    function SetInAggScope(inAgg: bool): (r: Step)
      requires inAgg || inAggScope
      ensures inAgg && inAggScope ==> r == Step(Err(InvalidExpression(NestedAggregation)), this)
      ensures inAgg && !inAggScope ==>
        && r.result == Ok(Unit)
        && r.state == this.(inAggScope := true, aggCounter := aggCounter + 1, fixedColRefCounter := colRefCounter)
      ensures !inAgg ==> r.state == this.(inAggScope := false) && (r.result.Ok? <==> colRefCounter != fixedColRefCounter)
    {
      if !inAgg then
        var s := this.(inAggScope := false);
        Step(s.CheckColRefCounter(), s)
      else if inAggScope then
        Step(Err(InvalidExpression(NestedAggregation)), this)
      else
        Step(Ok(Unit), this.(aggCounter := aggCounter + 1, inAggScope := true, fixedColRefCounter := colRefCounter))
    }

    /** `push_result_column_ref`: records a result column, and the first one outside an aggregation. */
    function PushResultColumnRef(column: Identifier): ContextState
    {
      if !inResultScope then this
      else
        var first := if !inAggScope && firstResultColOutAggScope.None? then Some(column) else firstResultColOutAggScope;
        this.(resultColumnSet := resultColumnSet + {column}, firstResultColOutAggScope := first)
    }

    /** `push_column_ref`: counts the reference, records a result column, maps the identifier. */
    function PushColumnRef(column: Identifier, columnRef: ColumnRef): (s: ContextState)
      ensures s.colRefCounter == colRefCounter + 1
      ensures s.columnMapping == columnMapping[column := columnRef]
      ensures s.resultColumnSet == if inResultScope then resultColumnSet + {column} else resultColumnSet
    {
      var s := this.(colRefCounter := colRefCounter + 1).PushResultColumnRef(column);
      s.(columnMapping := s.columnMapping[column := columnRef])
    }

    /**
     * Several column references, in order. They change only the counter (by
     * one each), the mapping and the result columns.
     */
    function PushColumnRefs(cols: seq<(Identifier, ColumnRef)>): (t: ContextState)
      ensures t.colRefCounter == colRefCounter + |cols|
      ensures t.fixedColRefCounter == fixedColRefCounter
      ensures t.inAggScope == inAggScope && t.inResultScope == inResultScope
      ensures t.aggCounter == aggCounter && t.hasVisitedGroupBy == hasVisitedGroupBy
      ensures t.resAliasedExprs == resAliasedExprs && t.groupByExprs == groupByExprs
    {
      if |cols| == 0 then this
      else PushColumnRefs(cols[..|cols| - 1]).PushColumnRef(cols[|cols| - 1].0, cols[|cols| - 1].1)
    }

    /**
     * `push_aliased_result_expr`: legal only once the group-by was visited;
     * fails, changing nothing, when no column was referenced since the
     * snapshot; otherwise appends the expression and snapshots the counter.
     */
    function PushAliasedResultExpr(e: AliasedResultExpr): (r: Step)
      requires hasVisitedGroupBy
      ensures colRefCounter == fixedColRefCounter ==> r == Step(Err(InvalidExpression(NoColumnReferenced)), this)
      ensures colRefCounter != fixedColRefCounter ==>
        r == Step(Ok(Unit), this.(resAliasedExprs := resAliasedExprs + [e], fixedColRefCounter := colRefCounter))
    {
      match CheckColRefCounter()
      case Err(err) => Step(Err(err), this)
      case Ok(_) => Step(Ok(Unit), this.(resAliasedExprs := resAliasedExprs + [e], fixedColRefCounter := colRefCounter))
    }

    /** `set_group_by_exprs`: the group-by columns become result columns. */
    function SetGroupByExprs(exprs: seq<Identifier>): (s: ContextState)
      ensures forall i :: 0 <= i < |exprs| ==> exprs[i] in s.resultColumnSet
      ensures resultColumnSet <= s.resultColumnSet
      ensures s.hasVisitedGroupBy
    {
      this.(groupByExprs := exprs, resultColumnSet := resultColumnSet + (set g | g in exprs), hasVisitedGroupBy := true)
    }

    /** `is_in_group_by_exprs`. */
    function IsInGroupByExprs(column: Identifier): (r: Result<bool, ConversionError>)
      ensures groupByExprs == [] || inAggScope || !inResultScope ==> r == Ok(false)
      ensures groupByExprs != [] && !inAggScope && inResultScope ==>
        && (r == Ok(true) <==> column in groupByExprs)
        && (r.Err? <==> column !in groupByExprs)
        && (r.Err? ==> r.error == InvalidGroupByColumnRef(column))
    {
      if groupByExprs == [] || inAggScope || !inResultScope then Ok(false)
      else if column in groupByExprs then Ok(true)
      else Err(InvalidGroupByColumnRef(column))
    }
  }

  /** The `Default` context: nothing set, every counter zero. */
  const DefaultState := ContextState(false, 0, None, 0, None, false, false, [], 0, [], None, {}, [], map[], None)

  lemma DefaultIsConsistent()
    ensures DefaultState.Consistent()
  {
  }

  // ------------------------------------- properties of sequences of updates

  /** The identifiers of a list of column references. */
  function Names(cols: seq<(Identifier, ColumnRef)>): set<Identifier>
  {
    if |cols| == 0 then {} else Names(cols[..|cols| - 1]) + {cols[|cols| - 1].0}
  }

  /**
   * The first result column outside an aggregation is fixed once set: it is
   * the first column referenced in result scope outside an aggregation.
   */
  lemma {:induction false} FirstResultColumnIsFirst(s: ContextState, cols: seq<(Identifier, ColumnRef)>)
    ensures s.PushColumnRefs(cols).firstResultColOutAggScope
         == if s.firstResultColOutAggScope.Some? then s.firstResultColOutAggScope
            else if s.inResultScope && !s.inAggScope && |cols| > 0 then Some(cols[0].0)
            else None
  {
    if |cols| > 0 {
      var init := cols[..|cols| - 1];
      FirstResultColumnIsFirst(s, init);
      if |init| > 0 {
        assert init[0] == cols[0];
      }
    }
  }

  /** In result scope every referenced column is a result column; outside it none is added. */
  lemma {:induction false} ResultColumnsReferenced(s: ContextState, cols: seq<(Identifier, ColumnRef)>)
    ensures s.PushColumnRefs(cols).resultColumnSet
         == if s.inResultScope then s.resultColumnSet + Names(cols) else s.resultColumnSet
    ensures Names(cols) <= s.PushColumnRefs(cols).columnMapping.Keys
  {
    if |cols| > 0 {
      ResultColumnsReferenced(s, cols[..|cols| - 1]);
    }
  }

  /** Every update keeps a consistent context consistent. */
  lemma {:induction false} PushColumnRefsConsistent(s: ContextState, cols: seq<(Identifier, ColumnRef)>)
    requires s.Consistent()
    ensures s.PushColumnRefs(cols).Consistent()
  {
    if |cols| > 0 {
      PushColumnRefsConsistent(s, cols[..|cols| - 1]);
    }
  }

  /**
   * An aggregation must reference a column: entering one, referencing `cols`
   * and leaving succeeds exactly when `cols` is not empty; entering twice is
   * the nested aggregation error.
   */
  lemma AggregationNeedsColumn(s: ContextState, cols: seq<(Identifier, ColumnRef)>)
    requires !s.inAggScope
    ensures var entered := s.SetInAggScope(true);
      && entered.result.Ok?
      && entered.state.SetInAggScope(true).result == Err(InvalidExpression(NestedAggregation))
      && (entered.state.PushColumnRefs(cols).SetInAggScope(false).result.Ok? <==> |cols| > 0)
  {
  }

  /**
   * Consecutive aliased results each reference a column: after one is pushed,
   * the next succeeds exactly when columns were referenced in between, and
   * then the result list grows by that expression.
   */
  lemma ResultNeedsColumn(s: ContextState, e0: AliasedResultExpr, cols: seq<(Identifier, ColumnRef)>,
                          e: AliasedResultExpr)
    requires s.hasVisitedGroupBy
    requires s.PushAliasedResultExpr(e0).result.Ok?
    ensures var t := s.PushAliasedResultExpr(e0).state.PushColumnRefs(cols);
      && t.hasVisitedGroupBy
      && (t.PushAliasedResultExpr(e).result.Ok? <==> |cols| > 0)
      && (|cols| > 0 ==> t.PushAliasedResultExpr(e).state.resAliasedExprs == s.resAliasedExprs + [e0, e])
  {
  }

  lemma SetInAggScopeConsistent(s: ContextState, inAgg: bool)
    requires s.Consistent() && (inAgg || s.inAggScope)
    ensures s.SetInAggScope(inAgg).state.Consistent()
  {
  }

  lemma PushAliasedResultExprConsistent(s: ContextState, e: AliasedResultExpr)
    requires s.Consistent() && s.hasVisitedGroupBy
    ensures s.PushAliasedResultExpr(e).state.Consistent()
  {
  }

  lemma SetGroupByExprsConsistent(s: ContextState, exprs: seq<Identifier>)
    requires s.Consistent()
    ensures s.SetGroupByExprs(exprs).Consistent()
  {
  }

  // ------------------------------------------------------ the mutable class

  class QueryContext {
    var inAggScope: bool
    var aggCounter: nat
    var sliceExpr: Option<Slice>
    var colRefCounter: nat
    var table: Option<TableRef>
    var inResultScope: bool
    var hasVisitedGroupBy: bool
    var orderByExprs: seq<OrderBy>
    var fixedColRefCounter: nat
    var groupByExprs: seq<Identifier>
    var whereExpr: Option<Expression>
    var resultColumnSet: set<Identifier>
    var resAliasedExprs: seq<AliasedResultExpr>
    var columnMapping: map<Identifier, ColumnRef>
    var firstResultColOutAggScope: Option<Identifier>

    /** The context's fields, as a value. */
    function State(): ContextState
      reads this
    {
      ContextState(inAggScope, aggCounter, sliceExpr, colRefCounter, table, inResultScope, hasVisitedGroupBy,
                   orderByExprs, fixedColRefCounter, groupByExprs, whereExpr, resultColumnSet, resAliasedExprs,
                   columnMapping, firstResultColOutAggScope)
    }

    predicate Valid()
      reads this
    {
      State().Consistent()
    }

    constructor ()
      ensures State() == DefaultState && Valid()
    {
      inAggScope, aggCounter, sliceExpr, colRefCounter, table := false, 0, None, 0, None;
      inResultScope, hasVisitedGroupBy, orderByExprs, fixedColRefCounter := false, false, [], 0;
      groupByExprs, whereExpr, resultColumnSet, resAliasedExprs := [], None, {}, [];
      columnMapping, firstResultColOutAggScope := map[], None;
    }

    method SetTableRef(t: TableRef)
      requires table.None?
      modifies this
      ensures State() == old(State()).SetTableRef(t)
    {
      table := Some(t);
    }

    /** `get_table_ref`: legal only once a table is set. */
    function GetTableRef(): (t: TableRef)
      reads this
      requires table.Some?
      ensures Some(t) == table
    {
      table.value
    }

    method SetWhereExpr(w: Option<Expression>)
      modifies this
      ensures State() == old(State()).(whereExpr := w)
    {
      whereExpr := w;
    }

    method SetSliceExpr(sl: Option<Slice>)
      modifies this
      ensures State() == old(State()).(sliceExpr := sl)
    {
      sliceExpr := sl;
    }

    method SetOrderByExprs(o: seq<OrderBy>)
      modifies this
      ensures State() == old(State()).(orderByExprs := o)
    {
      orderByExprs := o;
    }

    method ToggleResultScope()
      modifies this
      ensures State() == old(State()).ToggleResultScope()
    {
      inResultScope := !inResultScope;
    }

    method SetInAggScope(inAgg: bool) returns (r: Result<Unit, ConversionError>)
      requires inAgg || inAggScope
      requires Valid()
      modifies this
      ensures Step(r, State()) == old(State()).SetInAggScope(inAgg)
      ensures Valid()
    {
      SetInAggScopeConsistent(State(), inAgg);
      if !inAgg {
        inAggScope := false;
        if colRefCounter == fixedColRefCounter {
          return Err(InvalidExpression(NoColumnReferenced));
        }
        return Ok(Unit);
      }
      if inAggScope {
        return Err(InvalidExpression(NestedAggregation));
      }
      aggCounter := aggCounter + 1;
      inAggScope := true;
      fixedColRefCounter := colRefCounter;
      r := Ok(Unit);
    }

    method PushColumnRef(column: Identifier, columnRef: ColumnRef)
      requires Valid()
      modifies this
      ensures State() == old(State()).PushColumnRef(column, columnRef)
      ensures Valid()
    {
      colRefCounter := colRefCounter + 1;
      if inResultScope {
        resultColumnSet := resultColumnSet + {column};
        if !inAggScope && firstResultColOutAggScope.None? {
          firstResultColOutAggScope := Some(column);
        }
      }
      columnMapping := columnMapping[column := columnRef];
    }

    method PushAliasedResultExpr(e: AliasedResultExpr) returns (r: Result<Unit, ConversionError>)
      requires hasVisitedGroupBy
      requires Valid()
      modifies this
      ensures Step(r, State()) == old(State()).PushAliasedResultExpr(e)
      ensures Valid()
    {
      PushAliasedResultExprConsistent(State(), e);
      if colRefCounter == fixedColRefCounter {
        return Err(InvalidExpression(NoColumnReferenced));
      }
      resAliasedExprs := resAliasedExprs + [e];
      fixedColRefCounter := colRefCounter;
      r := Ok(Unit);
    }

    /** `set_group_by_exprs`: inserts the group-by columns one by one into the result columns. */
    method SetGroupByExprs(exprs: seq<Identifier>)
      requires Valid()
      modifies this
      ensures State() == old(State()).SetGroupByExprs(exprs)
      ensures Valid()
    {
      SetGroupByExprsConsistent(State(), exprs);
      var columns := resultColumnSet;
      var i := 0;
      while i < |exprs|
        invariant 0 <= i <= |exprs|
        invariant columns == resultColumnSet + (set j | 0 <= j < i :: exprs[j])
      {
        columns := columns + {exprs[i]};
        i := i + 1;
      }
      assert (set j | 0 <= j < |exprs| :: exprs[j]) == (set g | g in exprs);
      groupByExprs := exprs;
      resultColumnSet := columns;
      hasVisitedGroupBy := true;
    }

    function IsInGroupByExprs(column: Identifier): (r: Result<bool, ConversionError>)
      reads this
      ensures r == State().IsInGroupByExprs(column)
    {
      if groupByExprs == [] || inAggScope || !inResultScope then Ok(false)
      else if column in groupByExprs then Ok(true)
      else Err(InvalidGroupByColumnRef(column))
    }

    /**
     * `get_any_result_column_ref`: the column of the first result column in
     * identifier order, or nothing when there are no result columns. The
     * source indexes the mapping with that column, so it must be mapped.
     */
    method GetAnyResultColumnRef() returns (r: Option<(Identifier, ColumnType)>)
      requires forall c :: IsLeast(c, resultColumnSet) ==> c in columnMapping
      ensures r.None? <==> resultColumnSet == {}
      ensures r.Some? ==> exists c :: IsLeast(c, resultColumnSet)
                                      && r.value == (columnMapping[c].columnId, columnMapping[c].columnType)
    {
      var rest := resultColumnSet;
      var best: Option<Identifier> := None;
      while rest != {}
        invariant rest <= resultColumnSet
        invariant best.None? <==> rest == resultColumnSet
        invariant best.Some? ==> best.value in resultColumnSet
        invariant best.Some? ==> forall d :: d in resultColumnSet - rest ==> IdentLe(best.value, d)
        decreases |rest|
      {
        var c :| c in rest;
        if best.None? || !IdentLe(best.value, c) {
          if best.Some? {
            IdentLeTotal(best.value, c);
            forall d | d in resultColumnSet - rest
              ensures IdentLe(c, d)
            {
              IdentLeTransitive(c, best.value, d);
            }
          }
          best := Some(c);
        }
        assert IdentLe(c, c) by { IdentLeTotal(c, c); }
        rest := rest - {c};
      }
      if best.None? {
        return None;
      }
      var column := columnMapping[best.value];
      r := Some((column.columnId, column.columnType));
    }

    /**
     * `get_aliased_result_exprs` (legal only with at least one result): the
     * result list when aliases are unique and, without a group-by, no result
     * column appears outside the aggregations; `DuplicateResultAlias` of the
     * first alias occurring more than once; `InvalidGroupByColumnRef` of the
     * first result column outside an aggregation, which in a consistent context
     * is one of the result columns.
     */
    method GetAliasedResultExprs() returns (r: Result<seq<AliasedResultExpr>, ConversionError>)
      requires |resAliasedExprs| > 0
      ensures r.Ok? <==> DistinctAliases(resAliasedExprs)
                         && !(groupByExprs == [] && aggCounter > 0 && firstResultColOutAggScope.Some?)
      ensures r.Ok? ==> r.value == resAliasedExprs
      ensures !DistinctAliases(resAliasedExprs) ==>
        exists i :: 0 <= i < |resAliasedExprs| && r == Err(DuplicateResultAlias(resAliasedExprs[i].alias))
                    && AliasCount(resAliasedExprs, resAliasedExprs[i].alias) > 1
                    && forall k :: 0 <= k < i ==> AliasCount(resAliasedExprs, resAliasedExprs[k].alias) == 1
      ensures DistinctAliases(resAliasedExprs) && r.Err? ==> r == Err(InvalidGroupByColumnRef(firstResultColOutAggScope.value))
      ensures Valid() && r.Err? && r.error.InvalidGroupByColumnRef? ==> r.error.column in resultColumnSet
    {
      var i := 0;
      while i < |resAliasedExprs|
        invariant 0 <= i <= |resAliasedExprs|
        invariant forall k :: 0 <= k < i ==> AliasCount(resAliasedExprs, resAliasedExprs[k].alias) == 1
      {
        var col := resAliasedExprs[i];
        if AliasCount(resAliasedExprs, col.alias) != 1 {
          AliasCountOfMember(resAliasedExprs, i);
          UniqueCountsAreDistinct(resAliasedExprs);
          return Err(DuplicateResultAlias(col.alias));
        }
        i := i + 1;
      }
      UniqueCountsAreDistinct(resAliasedExprs);
      if groupByExprs == [] && aggCounter > 0 && firstResultColOutAggScope.Some? {
        return Err(InvalidGroupByColumnRef(firstResultColOutAggScope.value));
      }
      r := Ok(resAliasedExprs);
    }

    /**
     * `get_order_by_exprs`: the order-by list when every entry names a result
     * alias, else `InvalidOrderBy` of the first entry that does not.
     */
    method GetOrderByExprs() returns (r: Result<seq<OrderBy>, ConversionError>)
      ensures r.Ok? <==> forall k :: 0 <= k < |orderByExprs| ==> orderByExprs[k].expr in Aliases(resAliasedExprs)
      ensures r.Ok? ==> r.value == orderByExprs
      ensures r.Err? ==> exists k :: 0 <= k < |orderByExprs| && orderByExprs[k].expr !in Aliases(resAliasedExprs)
                                     && r.error == InvalidOrderBy(orderByExprs[k].expr)
                                     && forall k' :: 0 <= k' < k ==> orderByExprs[k'].expr in Aliases(resAliasedExprs)
    {
      var aliases := Aliases(resAliasedExprs);
      var k := 0;
      while k < |orderByExprs|
        invariant 0 <= k <= |orderByExprs|
        invariant forall k' :: 0 <= k' < k ==> orderByExprs[k'].expr in aliases
      {
        var byExpr := orderByExprs[k];
        if byExpr.expr !in aliases {
          return Err(InvalidOrderBy(byExpr.expr));
        }
        k := k + 1;
      }
      r := Ok(orderByExprs);
    }
  }

  // ---------------------------------------------- lowering to a GroupByExpr

  /**
   * `WhereExprBuilder::build`: compiles the where clause against the column
   * mapping (`None` when there is nothing to compile). Its source is not part
   * of this model, so the lowering takes it as a parameter.
   */
  type WhereBuilder = (map<Identifier, ColumnRef>, Option<Expression>) -> Result<Option<SelectionPlan>, ConversionError>

  /** Each group-by identifier resolved through the mapping; the first unknown one is `MissingColumn`. */
  function {:induction false} GroupByColumns(gb: seq<Identifier>, mapping: map<Identifier, ColumnRef>, rid: ResourceId)
    : (r: Result<seq<ColumnExpr>, ConversionError>)
    ensures r.Ok? <==> forall i :: 0 <= i < |gb| ==> gb[i] in mapping
    ensures r.Ok? ==> |r.value| == |gb| && forall i :: 0 <= i < |gb| ==> r.value[i] == ColumnExpr(mapping[gb[i]])
    ensures r.Err? ==> exists i :: 0 <= i < |gb| && gb[i] !in mapping && r.error == MissingColumn(gb[i], rid)
                                   && forall k :: 0 <= k < i ==> gb[k] in mapping
  {
    if |gb| == 0 then Ok([])
    else if gb[0] !in mapping then Err(MissingColumn(gb[0], rid))
    else
      match GroupByColumns(gb[1..], mapping, rid)
      case Err(e) =>
        assert forall i :: 1 <= i < |gb| ==> gb[i] == gb[1..][i - 1];
        Err(e)
      case Ok(rest) =>
        assert forall i :: 1 <= i < |gb| ==> gb[i] == gb[1..][i - 1];
        Ok([ColumnExpr(mapping[gb[0]])] + rest)
  }

  /** The identifier summed by `SUM(column)`, if `e` is one. */
  function SumColumn(e: Expression): (id: Option<Identifier>)
    ensures id.Some? <==> e.Aggregation? && e.op == Sum && e.expr.Column?
    ensures id.Some? ==> e == Aggregation(Sum, Column(id.value))
  {
    if e.Aggregation? && e.op == Sum && e.expr.Column? then Some(e.expr.name) else None
  }

  /**
   * The sum columns the source looks up in the mapping (it panics on a
   * missing one): those up to the first result that is not `SUM(column)`.
   */
  predicate SumsResolve(res: seq<AliasedResultExpr>, mapping: map<Identifier, ColumnRef>)
  {
    |res| == 0 || match SumColumn(res[0].expr)
                  case None => true
                  case Some(id) => id in mapping && SumsResolve(res[1..], mapping)
  }

  /** A result expression `SUM(id) AS alias` as a sum column, typed as its source column. */
  function SumEntry(e: AliasedResultExpr, mapping: map<Identifier, ColumnRef>, t: TableRef): (ColumnExpr, ColumnField)
    requires SumColumn(e.expr).Some? && SumColumn(e.expr).value in mapping
  {
    var id := SumColumn(e.expr).value;
    var ty := mapping[id].columnType;
    (ColumnExpr(ColumnRef(t, id, ty)), ColumnField(e.alias, ty))
  }

  /** Every middle result expression as a sum column, or nothing when one is not `SUM(column)`. */
  function {:induction false} SumExprs(res: seq<AliasedResultExpr>, mapping: map<Identifier, ColumnRef>, t: TableRef)
    : (r: Option<seq<(ColumnExpr, ColumnField)>>)
    requires SumsResolve(res, mapping)
    ensures r.Some? <==> forall j :: 0 <= j < |res| ==> SumColumn(res[j].expr).Some?
    ensures r.Some? ==> |r.value| == |res|
                        && forall j :: 0 <= j < |res| ==> && SumColumn(res[j].expr).Some?
                                                          && SumColumn(res[j].expr).value in mapping
                                                          && r.value[j] == SumEntry(res[j], mapping, t)
  {
    if |res| == 0 then Some([])
    else if SumColumn(res[0].expr).None? then None
    else
      var rest := SumExprs(res[1..], mapping, t);
      assert forall j :: 1 <= j < |res| ==> res[j] == res[1..][j - 1];
      if rest.None? then None else Some([SumEntry(res[0], mapping, t)] + rest.value)
  }

  /** The select list starts with `FIRST(g_i)` for each group-by column `g_i`, in order. */
  predicate GroupByCompliant(gb: seq<Identifier>, res: seq<AliasedResultExpr>)
    requires |gb| <= |res|
  {
    forall i :: 0 <= i < |gb| ==> res[i].expr == Aggregation(First, Column(gb[i]))
  }

  predicate CountCompliant(e: Expression)
  {
    e.Aggregation? && e.op == Count && e.expr.Column?
  }

  /**
   * The provable select list: the group-by columns in order, any number of
   * sums of columns, and one count of a column.
   */
  predicate ProvableShape(s: ContextState)
  {
    var g, res := |s.groupByExprs|, s.resAliasedExprs;
    && |res| >= g + 1
    && GroupByCompliant(s.groupByExprs, res)
    && (forall j :: g <= j < |res| - 1 ==> SumColumn(res[j].expr).Some?)
    && CountCompliant(res[|res| - 1].expr)
  }

  /** The context gets past the where clause, the table and the group-by lookups. */
  predicate Lowerable(s: ContextState, build: WhereBuilder)
  {
    && s.whereExpr.Some?
    && build(s.columnMapping, s.whereExpr).Ok?
    && s.table.Some?
    && forall i :: 0 <= i < |s.groupByExprs| ==> s.groupByExprs[i] in s.columnMapping
  }

  /** The result expressions between the group-by columns and the count column. */
  function Middle(res: seq<AliasedResultExpr>, g: nat): (m: seq<AliasedResultExpr>)
    requires g + 1 <= |res|
    ensures |m| == |res| - g - 1
    ensures forall j :: 0 <= j < |m| ==> m[j] == res[g + j]
  {
    res[g..|res| - 1]
  }

  /** What the source demands for the lowering not to panic. */
  predicate SumLookupsSucceed(s: ContextState, build: WhereBuilder)
  {
    var g, n := |s.groupByExprs|, |s.resAliasedExprs|;
    (Lowerable(s, build) && n >= g + 1) ==> SumsResolve(Middle(s.resAliasedExprs, g), s.columnMapping)
  }

  /** The compiled where clause, `true` when there is none. */
  function WhereClause(compiled: Option<SelectionPlan>): SelectionPlan
  {
    if compiled.Some? then compiled.value else LiteralBoolean(true)
  }

  /** `node` is the group-by node the context describes, column by column. */
  predicate LowersTo(s: ContextState, build: WhereBuilder, node: GroupByExpr)
  {
    var g, res := |s.groupByExprs|, s.resAliasedExprs;
    && Lowerable(s, build)
    && ProvableShape(s)
    && |node.groupByExprs| == g
    && (forall i :: 0 <= i < g ==> node.groupByExprs[i] == ColumnExpr(s.columnMapping[s.groupByExprs[i]]))
    && |node.sumExpr| == |res| - g - 1
    && (forall j :: 0 <= j < |node.sumExpr| ==>
          SumColumn(res[g + j].expr).value in s.columnMapping
          && node.sumExpr[j] == SumEntry(res[g + j], s.columnMapping, s.table.value))
    && node.countAlias == res[|res| - 1].alias
    && node.table == TableExpr(s.table.value)
    && node.whereClause == WhereClause(build(s.columnMapping, s.whereExpr).value)
  }

  /**
   * `TryFrom<&QueryContext> for Option<GroupByExpr>`: `Ok(None)` for a query
   * this node cannot prove, an error for a wrong query, and otherwise the
   * group-by node.
   */
  function TryFrom(s: ContextState, build: WhereBuilder): (r: Result<Option<GroupByExpr>, ConversionError>)
    requires SumLookupsSucceed(s, build)
    ensures s.whereExpr.None? ==> r == Ok(None)
    ensures s.whereExpr.Some? && build(s.columnMapping, s.whereExpr).Err? ==> r == Err(build(s.columnMapping, s.whereExpr).error)
    ensures s.whereExpr.Some? && build(s.columnMapping, s.whereExpr).Ok? && s.table.None? ==> r == Err(InvalidExpression(NoTableRef))
    ensures s.whereExpr.Some? && build(s.columnMapping, s.whereExpr).Ok? && s.table.Some? && !Lowerable(s, build) ==>
      r.Err? && r.error.MissingColumn? && r.error.column in s.groupByExprs && r.error.column !in s.columnMapping
    ensures Lowerable(s, build) ==> r.Ok? && (r.value.Some? <==> ProvableShape(s))
    ensures r.Ok? && r.value.Some? ==> LowersTo(s, build, r.value.value)
  {
    if s.whereExpr.None? then Ok(None)
    else
      match build(s.columnMapping, s.whereExpr)
      case Err(e) => Err(e)
      case Ok(compiled) =>
        if s.table.None? then Err(InvalidExpression(NoTableRef))
        else
          var t := s.table.value;
          match GroupByColumns(s.groupByExprs, s.columnMapping, t.resourceId)
          case Err(e) => Err(e)
          case Ok(groupBy) => Ok(Lower(s, build, groupBy))
  }

  /**
   * The lowering once the where clause, the table and the group-by lookups
   * have succeeded: the group-by node when the select list has the provable
   * shape, nothing otherwise.
   */
  function Lower(s: ContextState, build: WhereBuilder, groupBy: seq<ColumnExpr>): (r: Option<GroupByExpr>)
    requires Lowerable(s, build) && SumLookupsSucceed(s, build)
    requires GroupByColumns(s.groupByExprs, s.columnMapping, s.table.value.resourceId) == Ok(groupBy)
    ensures r.Some? <==> ProvableShape(s)
    ensures r.Some? ==> LowersTo(s, build, r.value)
  {
    var t := s.table.value;
    var g, n := |groupBy|, |s.resAliasedExprs|;
    if n < g + 1 then None
    else
      var sums := SumExprs(Middle(s.resAliasedExprs, g), s.columnMapping, t);
      if !GroupByCompliant(s.groupByExprs, s.resAliasedExprs) || sums.None?
         || !CountCompliant(s.resAliasedExprs[n - 1].expr) then
        None
      else
        Some(GroupByExpr(groupBy, sums.value, s.resAliasedExprs[n - 1].alias, TableExpr(t),
                         WhereClause(build(s.columnMapping, s.whereExpr).value)))
  }
}
