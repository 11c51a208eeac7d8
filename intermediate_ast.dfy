/**
 * The parts of the parser's intermediate syntax tree that the query context and
 * the group-by lowering inspect: identifiers, expressions, aliased result
 * expressions, order-by clauses and slices.
 */
module IntermediateAst {

  /** A SQL identifier (a column, table, schema or alias name). */
  type Identifier = string

  datatype AggregationOperator = Max | Min | Sum | Count | First

  datatype BinaryOperator =
    | Add | Subtract | Multiply | Division
    | And | Or | Equal | LessThanOrEqual | GreaterThanOrEqual

  datatype UnaryOperator = Not

  datatype Literal =
    | BooleanLiteral(b: bool)
    | BigIntLiteral(i: int)
    | VarCharLiteral(s: string)

  datatype Expression =
    | Column(name: Identifier)
    | Literal(literal: Literal)
    | Aggregation(op: AggregationOperator, expr: Expression)
    | Binary(bop: BinaryOperator, left: Expression, right: Expression)
    | Unary(uop: UnaryOperator, operand: Expression)
    | Wildcard

  /** `<expr> AS <alias>` in a SELECT list. */
  datatype AliasedResultExpr = AliasedResultExpr(expr: Expression, alias: Identifier)

  datatype OrderByDirection = Asc | Desc

  /** `ORDER BY <expr> <direction>`, where `expr` must name a result alias. */
  datatype OrderBy = OrderBy(expr: Identifier, direction: OrderByDirection)

  /** `LIMIT number_rows OFFSET offset_value`. */
  datatype Slice = Slice(numberRows: nat, offsetValue: int)
}
