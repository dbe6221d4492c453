/** The type model and runtime values (`qfs-types`): column types, schemas, values, row batches. */
module Types {
  import opened Wrappers

  newtype Byte = b: int | 0 <= b < 256

  type I64 = n: int | -0x8000_0000_0000_0000 <= n < 0x8000_0000_0000_0000

  type U64 = n: int | 0 <= n < 0x1_0000_0000_0000_0000

  /** A parsed JSON number keeps its kind: an integer in `i64`'s or `u64`'s range, or a finite float. */
  type JsonInt = n: int | -0x8000_0000_0000_0000 <= n < 0x1_0000_0000_0000_0000

  datatype JsonNumber = Whole(n: JsonInt) | Fraction(x: real)

  /** A JSON tree. An object is its entry list in key order (the parser keeps it in a `BTreeMap`). */
  datatype Json =
    | JNull
    | JBool(b: bool)
    | JNum(num: JsonNumber)
    | JStr(s: string)
    | JArr(items: seq<Json>)
    | JObj(entries: seq<Entry>)

  datatype Entry = Entry(key: string, value: Json)

  datatype Value =
    | Null
    | Bool(b: bool)
    | Int(n: I64)
    | Float(x: real)
    | Text(s: string)
    | Bytes(bytes: seq<Byte>)
    | Timestamp(t: I64)
    | Struct(fields: seq<Field>)
    | Array(items: seq<Value>)
    | JsonVal(json: Json)

  datatype Field = Field(name: string, value: Value)

  datatype ColumnType =
    | TBool | TInt | TFloat | TDecimal | TText | TBytes | TTimestamp | TDate | TUuid
    | TStruct(schema: Schema)
    | TArray(elem: ColumnType)
    | TJson
    | TUnknown
  {
    predicate IsScalar() {
      !TStruct? && !TArray? && !TJson? && !TUnknown?
    }
  }

  datatype Provenance = Provenance(driver: Option<string>, sourceCol: Option<string>)

  const NO_PROVENANCE := Provenance(None, None)

  datatype Column = Column(name: string, ty: ColumnType, nullable: bool, provenance: Provenance)

  function NewColumn(name: string, ty: ColumnType, nullable: bool): Column {
    Column(name, ty, nullable, NO_PROVENANCE)
  }

  datatype Schema = Schema(columns: seq<Column>)

  const EMPTY_SCHEMA := Schema([])

  datatype Row = Row(values: seq<Value>)

  datatype RowBatch = RowBatch(schema: Schema, rows: seq<Row>)

  const EMPTY_BATCH := RowBatch(EMPTY_SCHEMA, [])

  /** The position of the first column called `name`, if there is one. */
  function ColumnIndex(cols: seq<Column>, name: string): (r: Option<nat>)
    ensures r.Some? ==> r.value < |cols| && cols[r.value].name == name
    ensures r.Some? ==> forall j :: 0 <= j < r.value ==> cols[j].name != name
    ensures r.None? ==> forall j :: 0 <= j < |cols| ==> cols[j].name != name
  {
    if cols == [] then None
    else if cols[0].name == name then Some(0)
    else
      match ColumnIndex(cols[1..], name)
      case None => None
      case Some(i) => Some(i + 1)
  }

  function FindColumn(schema: Schema, name: string): (r: Option<Column>)
    ensures r.Some? <==> exists j :: 0 <= j < |schema.columns| && schema.columns[j].name == name
    ensures r.Some? ==> r.value in schema.columns && r.value.name == name
  {
    match ColumnIndex(schema.columns, name)
    case None => None
    case Some(i) => Some(schema.columns[i])
  }

  function ColumnNames(cols: seq<Column>): (names: seq<string>)
    ensures |names| == |cols|
    ensures forall j :: 0 <= j < |cols| ==> names[j] == cols[j].name
  {
    seq(|cols|, i requires 0 <= i < |cols| => cols[i].name)
  }

  /** The type a dotted path reaches, `TUnknown` below late-bound data, `None` where it does not resolve. */
  function ResolveInType(ty: ColumnType, rest: seq<string>): Option<ColumnType>
    decreases rest
  {
    if rest == [] then Some(ty)
    else
      match ty
      case TStruct(inner) =>
        (match FindColumn(inner, rest[0])
         case None => None
         case Some(c) => ResolveInType(c.ty, rest[1..]))
      case TJson => Some(TUnknown)
      case TUnknown => Some(TUnknown)
      case _ => None
  }

  function ResolveFieldPath(schema: Schema, segs: seq<string>): Option<ColumnType> {
    if segs == [] then Some(TStruct(schema))
    else
      match FindColumn(schema, segs[0])
      case None => None
      case Some(c) => ResolveInType(c.ty, segs[1..])
  }
}
