/** Exploding a collection column into rows, and navigating nested values. */
module Nested {
  import opened Wrappers
  import opened Types
  import opened Errors
  import opened Schemas
  import opened Values
  import opened Codec
  import Text

  // ---- EXPAND ----

  /** What an array element contributes: a struct's field values, or itself. */
  function ElementCells(item: Value): seq<Value> {
    match item
    case Struct(fields) => FieldValues(fields)
    case _ => [item]
  }

  function Splice(row: Row, idx: nat, replacement: seq<Value>): Row
    requires idx <= |row.values|
  {
    Row(row.values[..idx] + replacement + if idx < |row.values| then row.values[idx + 1..] else [])
  }

  function SpliceEach(row: Row, idx: nat, items: seq<Value>): (r: seq<Row>)
    requires idx <= |row.values|
    ensures |r| == |items|
    ensures forall k :: 0 <= k < |items| ==> r[k] == Splice(row, idx, ElementCells(items[k]))
  {
    seq(|items|, k requires 0 <= k < |items| => Splice(row, idx, ElementCells(items[k])))
  }

  function CellAt(row: Row, idx: nat): Value {
    if idx < |row.values| then row.values[idx] else Null
  }

  function ExpandRow(row: Row, idx: nat): seq<Row>
    requires idx <= |row.values|
  {
    match CellAt(row, idx)
    case Array(items) => SpliceEach(row, idx, items)
    case Struct(fields) => [Splice(row, idx, FieldValues(fields))]
    case other => [Splice(row, idx, [other])]
  }

  predicate Reach(rows: seq<Row>, idx: nat) {
    forall i :: 0 <= i < |rows| ==> idx <= |rows[i].values|
  }

  function FlatMap<T, U>(items: seq<T>, f: T -> seq<U>): seq<U> {
    if items == [] then [] else f(items[0]) + FlatMap(items[1..], f)
  }

  lemma {:induction false} FlatMapConcat<T, U>(a: seq<T>, b: seq<T>, f: T -> seq<U>)
    ensures FlatMap(a + b, f) == FlatMap(a, f) + FlatMap(b, f)
  {
    if a == [] {
      assert a + b == b;
    } else {
      assert (a + b)[0] == a[0] && (a + b)[1..] == a[1..] + b;
      FlatMapConcat(a[1..], b, f);
      Text.SeqAssociates(f(a[0]), FlatMap(a[1..], f), FlatMap(b, f));
    }
  }

  lemma FlatMapOne<T, U>(item: T, f: T -> seq<U>)
    ensures FlatMap([item], f) == f(item)
  {
    assert [item][1..] == [] && f(item) + [] == f(item);
  }

  function Expander(idx: nat): Row -> seq<Row> {
    (row: Row) => if idx <= |row.values| then ExpandRow(row, idx) else []
  }

  function ExpandRows(rows: seq<Row>, idx: nat): seq<Row>
    requires Reach(rows, idx)
  {
    FlatMap(rows, Expander(idx))
  }

  /** Every row is wide enough to have the column, as its position is taken from the schema. */
  predicate Expandable(batch: RowBatch, field: string) {
    var at := ColumnIndex(batch.schema.columns, field);
    at.Some? ==> Reach(batch.rows, at.value)
  }

  /** A batch without the column, or whose column is no collection, is returned as it is. */
  function Expand(batch: RowBatch, field: string): RowBatch
    requires Expandable(batch, field)
  {
    match ColumnIndex(batch.schema.columns, field)
    case None => batch
    case Some(idx) =>
      match ExpandSchema(batch.schema, field)
      case Err(_) => batch
      case Ok(schema) => RowBatch(schema, ExpandRows(batch.rows, idx))
  }

  /** One row's outputs pushed behind the others: one per element of an array, otherwise one. */
  method PushExpanded(out: seq<Row>, row: Row, idx: nat) returns (next: seq<Row>)
    requires idx <= |row.values|
    ensures next == out + ExpandRow(row, idx)
  {
    var target := CellAt(row, idx);
    next := out;
    match target
    case Array(items) =>
      for k := 0 to |items|
        invariant next == out + SpliceEach(row, idx, items)[..k]
      {
        next := next + [Splice(row, idx, ElementCells(items[k]))];
      }
    case Struct(fields) => next := next + [Splice(row, idx, FieldValues(fields))];
    case _ => next := next + [Splice(row, idx, [target])];
  }

  /** The loop over the rows. */
  method ExpandLoop(batch: RowBatch, field: string) returns (r: RowBatch)
    requires Expandable(batch, field)
    ensures r == Expand(batch, field)
  {
    var at := ColumnIndex(batch.schema.columns, field);
    if at.None? {
      return batch;
    }
    var expanded := ExpandSchema(batch.schema, field);
    if expanded.Err? {
      return batch;
    }
    var rows := ExpandAll(batch.rows, at.value);
    return RowBatch(expanded.value, rows);
  }

  method ExpandAll(rows: seq<Row>, idx: nat) returns (out: seq<Row>)
    requires Reach(rows, idx)
    ensures out == ExpandRows(rows, idx)
  {
    out := [];
    for i := 0 to |rows|
      invariant out == FlatMap(rows[..i], Expander(idx))
    {
      assert rows[..i + 1] == rows[..i] + [rows[i]];
      FlatMapConcat(rows[..i], [rows[i]], Expander(idx));
      FlatMapOne(rows[i], Expander(idx));
      out := PushExpanded(out, rows[i], idx);
    }
    assert rows[..|rows|] == rows;
  }

  // ---- Rows and columns are conserved ----

  /** How many rows a cell becomes: one per element of an array, otherwise one. */
  function Multiplicity(v: Value): nat {
    if v.Array? then |v.items| else 1
  }

  function TotalRows(rows: seq<Row>, idx: nat): nat {
    if rows == [] then 0 else Multiplicity(CellAt(rows[0], idx)) + TotalRows(rows[1..], idx)
  }

  /** Row `i`'s own outputs start here. */
  function OffsetOf(rows: seq<Row>, idx: nat, i: nat): nat
    requires i <= |rows|
  {
    TotalRows(rows[..i], idx)
  }

  /** The cells left and right of the expanded column are those of the original row, in order. */
  predicate KeepsOthers(out: Row, row: Row, idx: nat)
    requires idx < |row.values|
  {
    var right := |row.values| - idx - 1;
    && |out.values| >= idx + right
    && out.values[..idx] == row.values[..idx]
    && out.values[|out.values| - right..] == row.values[idx + 1..]
  }

  lemma SpliceKeepsOthers(row: Row, idx: nat, replacement: seq<Value>)
    requires idx < |row.values|
    ensures var out := Splice(row, idx, replacement);
            && KeepsOthers(out, row, idx)
            && |out.values| == |row.values| - 1 + |replacement|
            && out.values[idx..idx + |replacement|] == replacement
  {
  }

  lemma ExpandRowKeeps(row: Row, idx: nat, k: nat)
    requires idx < |row.values| && k < |ExpandRow(row, idx)|
    ensures KeepsOthers(ExpandRow(row, idx)[k], row, idx)
  {
    match row.values[idx]
    case Array(items) => SpliceKeepsOthers(row, idx, ElementCells(items[k]));
    case Struct(fields) => SpliceKeepsOthers(row, idx, FieldValues(fields));
    case other => SpliceKeepsOthers(row, idx, [other]);
  }

  lemma ReachTail(rows: seq<Row>, idx: nat)
    requires Reach(rows, idx) && rows != []
    ensures Reach(rows[1..], idx) && idx <= |rows[0].values|
  {
    assert forall i :: 0 <= i < |rows| - 1 ==> rows[1..][i] == rows[i + 1];
  }

  lemma ExpandRowsCons(rows: seq<Row>, idx: nat)
    requires Reach(rows, idx) && rows != []
    ensures Reach(rows[1..], idx) && ExpandRows(rows, idx) == ExpandRow(rows[0], idx) + ExpandRows(rows[1..], idx)
  {
    ReachTail(rows, idx);
  }

  lemma {:induction false} ExpandRowsCount(rows: seq<Row>, idx: nat)
    requires Reach(rows, idx)
    ensures |ExpandRows(rows, idx)| == TotalRows(rows, idx)
  {
    if rows != [] {
      ExpandRowsCons(rows, idx);
      ExpandRowsCount(rows[1..], idx);
    }
  }

  /**
   Rows and columns are conserved: row `i` becomes as many rows as its array has elements, or one, in
   order and at their own place, and each keeps every other cell, in order and on its side.
   */
  lemma ExpandConserves(batch: RowBatch, field: string, idx: nat)
    requires ColumnIndex(batch.schema.columns, field) == Some(idx) && Replacement(batch.schema.columns[idx]).Some?
    requires BatchConforms(batch)
    ensures Expandable(batch, field) && |Expand(batch, field).rows| == TotalRows(batch.rows, idx)
    ensures forall i, k :: 0 <= i < |batch.rows| && 0 <= k < Multiplicity(CellAt(batch.rows[i], idx)) ==>
              Conserved(Expand(batch, field).rows, batch.rows, idx, i, k)
  {
    WideEnough(batch, idx);
    ExpandIsExpandRows(batch, field, idx);
    ExpandRowsCount(batch.rows, idx);
    forall i, k | 0 <= i < |batch.rows| && 0 <= k < Multiplicity(CellAt(batch.rows[i], idx))
      ensures Conserved(Expand(batch, field).rows, batch.rows, idx, i, k)
    {
      RowsConserved(batch.rows, idx, i, k);
    }
  }

  /** Output `k` of row `i` stands at its own place, and keeps the row's other cells. */
  predicate Conserved(out: seq<Row>, rows: seq<Row>, idx: nat, i: nat, k: nat)
    requires i < |rows|
  {
    var at := OffsetOf(rows, idx, i) + k;
    && at < |out|
    && idx < |rows[i].values|
    && k < |ExpandRow(rows[i], idx)|
    && out[at] == ExpandRow(rows[i], idx)[k]
    && KeepsOthers(out[at], rows[i], idx)
  }

  lemma WideEnough(batch: RowBatch, idx: nat)
    requires idx < |batch.schema.columns| && BatchConforms(batch)
    ensures forall j :: 0 <= j < |batch.rows| ==> idx < |batch.rows[j].values|
  {
    forall j | 0 <= j < |batch.rows|
      ensures idx < |batch.rows[j].values|
    {
      assert RowConforms(batch.rows[j], batch.schema);
    }
  }

  lemma ExpandIsExpandRows(batch: RowBatch, field: string, idx: nat)
    requires ColumnIndex(batch.schema.columns, field) == Some(idx) && Replacement(batch.schema.columns[idx]).Some?
    requires Reach(batch.rows, idx)
    ensures Expand(batch, field).rows == ExpandRows(batch.rows, idx)
  {
  }

  lemma RowsConserved(rows: seq<Row>, idx: nat, i: nat, k: nat)
    requires i < |rows| && forall j :: 0 <= j < |rows| ==> idx < |rows[j].values|
    requires k < Multiplicity(CellAt(rows[i], idx))
    ensures Conserved(ExpandRows(rows, idx), rows, idx, i, k)
  {
    assert Reach(rows, idx) && Reach(rows[..i], idx);
    ExpandRowsCount(rows[..i], idx);
    RowInPlace(rows, idx, i, k);
    ExpandRowKeeps(rows[i], idx, k);
  }

  lemma RowInPlace(rows: seq<Row>, idx: nat, i: nat, k: nat)
    requires Reach(rows, idx) && i < |rows| && k < |ExpandRow(rows[i], idx)|
    ensures Reach(rows[..i], idx)
    ensures var at := |ExpandRows(rows[..i], idx)| + k;
            at < |ExpandRows(rows, idx)| && ExpandRows(rows, idx)[at] == ExpandRow(rows[i], idx)[k]
  {
    assert Reach(rows[..i], idx) && Reach(rows[i..], idx);
    assert rows == rows[..i] + rows[i..];
    FlatMapConcat(rows[..i], rows[i..], Expander(idx));
    assert rows[i..][0] == rows[i];
  }

  // ---- Width ----

  /** The element flattens to exactly the columns the expanded schema gives it. */
  predicate ElementFits(item: Value, elem: ColumnType) {
    if elem.TStruct? then item.Struct? || |elem.schema.columns| == 1
    else item.Struct? ==> |item.fields| == 1
  }

  /** Every element fits; a null stands for one column. */
  predicate CellFits(v: Value, c: Column)
    requires Replacement(c).Some?
  {
    if v.Null? then |Replacement(c).value| == 1
    else v.Array? && c.ty.TArray? ==> forall k :: 0 <= k < |v.items| ==> ElementFits(v.items[k], c.ty.elem)
  }

  lemma {:induction false} ItemConforms(items: seq<Value>, ty: ColumnType, k: nat)
    requires AllConform(items, ty) && k < |items|
    ensures Conforms(items[k], ty, true)
  {
    if k > 0 {
      ItemConforms(items[1..], ty, k - 1);
    }
  }

  /** For a conforming cell of a collection column: its rows have the schema's width exactly when it fits. */
  lemma WidthOfRow(row: Row, schema: Schema, idx: nat)
    requires RowConforms(row, schema) && idx < |schema.columns| && Replacement(schema.columns[idx]).Some?
    ensures AllWide(ExpandRow(row, idx), |schema.columns| - 1 + |Replacement(schema.columns[idx]).value|) <==>
            CellFits(row.values[idx], schema.columns[idx])
  {
    var v, ty := row.values[idx], schema.columns[idx].ty;
    var width := |Replacement(schema.columns[idx]).value|;
    assert Conforms(v, ty, schema.columns[idx].nullable);
    var out := ExpandRow(row, idx);
    match v
    case Array(items) =>
      forall k | 0 <= k < |items|
        ensures |out[k].values| == |schema.columns| - 1 + width <==> ElementFits(items[k], ty.elem)
      {
        SpliceKeepsOthers(row, idx, ElementCells(items[k]));
        ItemConforms(items, ty.elem, k);
      }
    case Struct(fields) => SpliceKeepsOthers(row, idx, FieldValues(fields));
    case _ => SpliceKeepsOthers(row, idx, [v]);
  }

  predicate AllWide(rows: seq<Row>, width: int) {
    forall j :: 0 <= j < |rows| ==> |rows[j].values| == width
  }

  predicate AllCellsFit(rows: seq<Row>, idx: nat, c: Column)
    requires Replacement(c).Some?
  {
    forall i :: 0 <= i < |rows| ==> CellFits(CellAt(rows[i], idx), c)
  }

  lemma AllWideConcat(a: seq<Row>, b: seq<Row>, width: int)
    ensures AllWide(a + b, width) <==> AllWide(a, width) && AllWide(b, width)
  {
    assert forall j :: 0 <= j < |a| ==> (a + b)[j] == a[j];
    assert forall j :: 0 <= j < |b| ==> (a + b)[|a| + j] == b[j];
  }

  lemma AllCellsFitCons(rows: seq<Row>, idx: nat, c: Column)
    requires rows != [] && Replacement(c).Some?
    ensures AllCellsFit(rows, idx, c) <==> CellFits(CellAt(rows[0], idx), c) && AllCellsFit(rows[1..], idx, c)
  {
    assert forall i :: 0 <= i < |rows| - 1 ==> rows[1..][i] == rows[i + 1];
    assert forall i :: 0 < i < |rows| ==> rows[i] == rows[1..][i - 1];
  }

  lemma {:induction false} WidthOfRows(rows: seq<Row>, schema: Schema, idx: nat)
    requires idx < |schema.columns| && Replacement(schema.columns[idx]).Some?
    requires BatchConforms(RowBatch(schema, rows))
    ensures Reach(rows, idx)
    ensures AllWide(ExpandRows(rows, idx), |schema.columns| - 1 + |Replacement(schema.columns[idx]).value|) <==>
            AllCellsFit(rows, idx, schema.columns[idx])
  {
    WideEnough(RowBatch(schema, rows), idx);
    if rows != [] {
      assert forall i :: 0 <= i < |rows| - 1 ==> rows[1..][i] == rows[i + 1];
      ExpandRowsCons(rows, idx);
      WidthOfRow(rows[0], schema, idx);
      WidthOfRows(rows[1..], schema, idx);
      AllWideConcat(ExpandRow(rows[0], idx), ExpandRows(rows[1..], idx), |schema.columns| - 1 + |Replacement(schema.columns[idx]).value|);
      AllCellsFitCons(rows, idx, schema.columns[idx]);
    }
  }

  /** The expanded batch of conforming rows is as wide as its schema exactly when every cell of the column fits it. */
  lemma ExpandKeepsWidthExactlyWhen(batch: RowBatch, field: string, idx: nat)
    requires ColumnIndex(batch.schema.columns, field) == Some(idx) && Replacement(batch.schema.columns[idx]).Some?
    requires BatchConforms(batch)
    ensures Expandable(batch, field)
    ensures AllWide(Expand(batch, field).rows, |Expand(batch, field).schema.columns|) <==>
            AllCellsFit(batch.rows, idx, batch.schema.columns[idx])
  {
    WidthOfRows(batch.rows, batch.schema, idx);
    var cols := batch.schema.columns;
    assert |ExpandSchema(batch.schema, field).value.columns| == |cols| - 1 + |Replacement(cols[idx]).value|;
  }

  /** A null among structs is one such cell: it fills one slot of the two its schema has. */
  lemma NullElementNarrows()
    ensures var pair := Schema([NewColumn("x", TInt, true), NewColumn("y", TInt, true)]);
            var batch := RowBatch(Schema([NewColumn("a", TArray(TStruct(pair)), false)]), [Row([Array([Null])])]);
            && BatchConforms(batch)
            && Expandable(batch, "a")
            && Expand(batch, "a").rows == [Row([Null])]
            && |Expand(batch, "a").schema.columns| == 2
  {
    var pair := Schema([NewColumn("x", TInt, true), NewColumn("y", TInt, true)]);
    var schema := Schema([NewColumn("a", TArray(TStruct(pair)), false)]);
    var row := Row([Array([Null])]);
    assert [Null][1..] == [] && AllConform([Null], TStruct(pair));
    assert RowConforms(row, schema);
    assert ColumnIndex(schema.columns, "a") == Some(0);
    assert Replacement(schema.columns[0]) == Some(pair.columns);
    assert ExpandSchema(schema, "a") == Ok(Schema(schema.columns[..0] + pair.columns + schema.columns[1..]));
    assert ExpandRow(row, 0) == [Row([Null])] by {
      assert Splice(row, 0, [Null]).values == [Null];
      assert SpliceEach(row, 0, [Null]) == [Row([Null])];
    }
    FlatMapOne(row, Expander(0));
  }

  // ---- Navigation ----

  /** Walks field names; the schema handed down is advisory. */
  function Access(v: Value, schema: Schema, path: seq<string>): Option<Value>
    decreases path
  {
    if path == [] then Some(v)
    else
      match v
      case Struct(fields) =>
        (match FieldNamed(fields, path[0])
         case None => None
         case Some(child) =>
           var below := FindColumn(schema, path[0]);
           var inner := if below.Some? && below.value.ty.TStruct? then below.value.ty.schema else EMPTY_SCHEMA;
           Access(child, inner, path[1..]))
      case JsonVal(j) => (match AccessJson(j, path) case None => None case Some(k) => Some(JsonVal(k)))
      case _ => None
  }

  function AccessJson(j: Json, path: seq<string>): Option<Json>
    decreases path
  {
    if path == [] then Some(j)
    else
      match j
      case JObj(entries) => (match Find(entries, path[0]) case None => None case Some(child) => AccessJson(child, path[1..]))
      case _ => None
  }

  /** Navigation looks at the value alone. */
  lemma {:induction false} SchemaIsAdvisory(v: Value, a: Schema, b: Schema, path: seq<string>)
    ensures Access(v, a, path) == Access(v, b, path)
    decreases path
  {
    if path != [] && v.Struct? {
      var child := FieldNamed(v.fields, path[0]);
      if child.Some? {
        var x, y := FindColumn(a, path[0]), FindColumn(b, path[0]);
        SchemaIsAdvisory(child.value,
                         if x.Some? && x.value.ty.TStruct? then x.value.ty.schema else EMPTY_SCHEMA,
                         if y.Some? && y.value.ty.TStruct? then y.value.ty.schema else EMPTY_SCHEMA,
                         path[1..]);
      }
    }
  }

  /** Navigating a decoded tree is decoding the navigated tree. */
  lemma {:induction false} AccessCommutesWithDecoding(j: Json, schema: Schema, path: seq<string>)
    ensures Access(JsonToValue(j), schema, path) ==
            match AccessJson(j, path) case None => None case Some(k) => Some(JsonToValue(k))
    decreases path
  {
    if path != [] && j.JObj? {
      DecodedField(j.entries, path[0]);
      var child := Find(j.entries, path[0]);
      if child.Some? {
        var below := FindColumn(schema, path[0]);
        AccessCommutesWithDecoding(child.value, if below.Some? && below.value.ty.TStruct? then below.value.ty.schema else EMPTY_SCHEMA, path[1..]);
      }
    }
  }

  lemma {:induction false} DecodedField(entries: seq<Entry>, name: string)
    ensures FieldNamed(EntriesToFields(entries), name) ==
            match Find(entries, name) case None => None case Some(child) => Some(JsonToValue(child))
  {
    if entries != [] {
      assert EntriesToFields(entries)[1..] == EntriesToFields(entries[1..]);
      DecodedField(entries[1..], name);
    }
  }

  /** A path walked in two parts is the path walked at once. */
  lemma {:induction false} AccessFollows(v: Value, schema: Schema, a: seq<string>, b: seq<string>)
    ensures Access(v, schema, a + b) ==
            match Access(v, schema, a) case None => None case Some(mid) => Access(mid, EMPTY_SCHEMA, b)
    decreases a
  {
    if a == [] {
      assert a + b == b;
      SchemaIsAdvisory(v, schema, EMPTY_SCHEMA, b);
    } else {
      assert (a + b)[0] == a[0] && (a + b)[1..] == a[1..] + b;
      if v.Struct? && FieldNamed(v.fields, a[0]).Some? {
        var below := FindColumn(schema, a[0]);
        AccessFollows(FieldNamed(v.fields, a[0]).value,
                      if below.Some? && below.value.ty.TStruct? then below.value.ty.schema else EMPTY_SCHEMA, a[1..], b);
      } else if v.JsonVal? {
        AccessJsonFollows(v.json, a, b);
      }
    }
  }

  lemma {:induction false} AccessJsonFollows(j: Json, a: seq<string>, b: seq<string>)
    ensures AccessJson(j, a + b) ==
            match AccessJson(j, a) case None => None case Some(mid) => AccessJson(mid, b)
    decreases a
  {
    if a == [] {
      assert a + b == b;
    } else {
      assert (a + b)[0] == a[0] && (a + b)[1..] == a[1..] + b;
      if j.JObj? && Find(j.entries, a[0]).Some? {
        AccessJsonFollows(Find(j.entries, a[0]).value, a[1..], b);
      }
    }
  }
}
