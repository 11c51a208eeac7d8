/** Identity of tables and columns: the accessor keys of the proof system. */
module Database {
  import opened IntermediateAst

  datatype ColumnType =
    | Boolean | SmallInt | Int | BigInt | Int128
    | Decimal75(precision: nat, scale: int)
    | VarChar | ScalarType

  /** `schema.object_name` of a table. */
  datatype ResourceId = ResourceId(schema: Identifier, objectName: Identifier)

  datatype TableRef = TableRef(resourceId: ResourceId)

  /** A column of a table, with its type. */
  datatype ColumnRef = ColumnRef(table: TableRef, columnId: Identifier, columnType: ColumnType)

  /** A named, typed output column. */
  datatype ColumnField = ColumnField(name: Identifier, dataType: ColumnType)
}
