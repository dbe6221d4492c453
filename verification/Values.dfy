/** The type a value inhabits, and conformance of values and rows to types and schemas. */
module Values {
  import opened Wrappers
  import opened Types
  import opened Schemas

  /** A bare null has no type of its own; an array's element type is widened over all its elements. */
  function TypeOf(v: Value): ColumnType
    decreases v, 0
  {
    match v
    case Null => TUnknown
    case Bool(_) => TBool
    case Int(_) => TInt
    case Float(_) => TFloat
    case Text(_) => TText
    case Bytes(_) => TBytes
    case Timestamp(_) => TTimestamp
    case Struct(fields) => TStruct(Schema(FieldColumns(fields)))
    case Array(items) => TArray(WidenAll(items, TUnknown))
    case JsonVal(_) => TJson
  }

  function WidenAll(items: seq<Value>, acc: ColumnType): ColumnType
    decreases items, 1
  {
    if items == [] then acc else WidenAll(items[1..], Widen(acc, TypeOf(items[0])))
  }

  function FieldColumns(fields: seq<Field>): (r: seq<Column>)
    ensures |r| == |fields|
    decreases fields, 1
  {
    if fields == [] then []
    else [NewColumn(fields[0].name, TypeOf(fields[0].value), fields[0].value.Null?)] + FieldColumns(fields[1..])
  }

  predicate LateBound(ty: ColumnType) {
    ty.TUnknown? || ty.TJson?
  }

  predicate Conforms(v: Value, ty: ColumnType, nullable: bool)
    decreases v, 0
  {
    match v
    case Null => nullable
    case Bool(_) => ty.TBool? || LateBound(ty)
    case Int(_) => ty.TInt? || ty.TTimestamp? || ty.TDate? || LateBound(ty)
    case Float(_) => ty.TFloat? || LateBound(ty)
    case Text(_) => ty.TText? || ty.TDecimal? || ty.TUuid? || LateBound(ty)
    case Bytes(_) => ty.TBytes? || LateBound(ty)
    case Timestamp(_) => ty.TTimestamp? || ty.TInt? || LateBound(ty)
    case Struct(fields) =>
      LateBound(ty) || (ty.TStruct? && |fields| == |ty.schema.columns| && FieldsConform(fields, ty.schema.columns))
    case Array(items) => LateBound(ty) || (ty.TArray? && AllConform(items, ty.elem))
    case JsonVal(_) => LateBound(ty)
  }

  predicate AllConform(items: seq<Value>, ty: ColumnType)
    decreases items, 1
  {
    items == [] || (Conforms(items[0], ty, true) && AllConform(items[1..], ty))
  }

  predicate FieldsConform(fields: seq<Field>, cols: seq<Column>)
    requires |fields| == |cols|
    decreases fields, 1
  {
    fields == [] || (Conforms(fields[0].value, cols[0].ty, cols[0].nullable) && FieldsConform(fields[1..], cols[1..]))
  }

  /** As many cells as columns, each conforming to its column. */
  predicate RowConforms(row: Row, schema: Schema) {
    && |row.values| == |schema.columns|
    && forall i :: 0 <= i < |row.values| ==> Conforms(row.values[i], schema.columns[i].ty, schema.columns[i].nullable)
  }

  predicate BatchConforms(batch: RowBatch) {
    forall i :: 0 <= i < |batch.rows| ==> RowConforms(batch.rows[i], batch.schema)
  }
}
