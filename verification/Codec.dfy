/** The JSON bridge: trees to values and back, and ragged objects to a rectangular batch. */
module Codec {
  import opened Wrappers
  import opened Types
  import opened Schemas
  import opened Values
  import Text

  // ---- Objects: entry lists in key order ----

  predicate Ascending(entries: seq<Entry>) {
    forall i, j :: 0 <= i < j < |entries| ==> Text.Before(entries[i].key, entries[j].key)
  }

  function Find(entries: seq<Entry>, key: string): (r: Option<Json>)
    ensures r.Some? ==> exists i :: 0 <= i < |entries| && entries[i] == Entry(key, r.value)
    ensures r.None? ==> forall i :: 0 <= i < |entries| ==> entries[i].key != key
  {
    if entries == [] then None
    else if entries[0].key == key then
      assert entries[0] == Entry(key, entries[0].value);
      Some(entries[0].value)
    else
      var rest := Find(entries[1..], key);
      assert rest.Some? ==> exists i :: 0 < i < |entries| && entries[i] == Entry(key, rest.value) by {
        if rest.Some? {
          var i :| 0 <= i < |entries[1..]| && entries[1..][i] == Entry(key, rest.value);
          assert entries[i + 1] == Entry(key, rest.value);
        }
      }
      assert rest.None? ==> forall i :: 0 < i < |entries| ==> entries[i] == entries[1..][i - 1];
      rest
  }

  /** Inserting into a sorted map: replaces the value of a present key. */
  function Insert(entries: seq<Entry>, key: string, value: Json): seq<Entry> {
    if entries == [] then [Entry(key, value)]
    else if entries[0].key == key then [Entry(key, value)] + entries[1..]
    else if Text.Before(key, entries[0].key) then [Entry(key, value)] + entries
    else [entries[0]] + Insert(entries[1..], key, value)
  }

  lemma {:induction false} InsertFinds(entries: seq<Entry>, key: string, value: Json, other: string)
    requires Ascending(entries)
    ensures Find(Insert(entries, key, value), other) == if other == key then Some(value) else Find(entries, other)
  {
    if entries == [] || entries[0].key == key || Text.Before(key, entries[0].key) {
      if entries != [] && entries[0].key != key {
        assert ([Entry(key, value)] + entries)[1..] == entries;
      }
    } else {
      AscendingTail(entries);
      InsertFinds(entries[1..], key, value, other);
      assert Insert(entries, key, value)[1..] == Insert(entries[1..], key, value);
    }
  }

  lemma AscendingTail(entries: seq<Entry>)
    requires Ascending(entries) && entries != []
    ensures Ascending(entries[1..])
  {
  }

  lemma {:induction false} InsertKeys(entries: seq<Entry>, key: string, value: Json)
    ensures forall e :: e in Insert(entries, key, value) ==> e.key == key || e in entries
  {
    if entries != [] && entries[0].key != key && !Text.Before(key, entries[0].key) {
      InsertKeys(entries[1..], key, value);
    }
  }

  lemma {:induction false} InsertKeepsOrder(entries: seq<Entry>, key: string, value: Json)
    requires Ascending(entries)
    ensures Ascending(Insert(entries, key, value))
  {
    if entries != [] {
      var first := entries[0].key;
      if first == key {
        assert forall i :: 0 < i < |entries| ==> Insert(entries, key, value)[i] == entries[i];
      } else if Text.Before(key, first) {
        forall i | 0 <= i < |entries|
          ensures Text.Before(key, entries[i].key)
        {
          if i > 0 {
            Text.BeforeIsTransitive(key, first, entries[i].key);
          }
        }
      } else {
        Text.BeforeIsTotal(key, first);
        var rest := Insert(entries[1..], key, value);
        InsertKeepsOrder(entries[1..], key, value);
        InsertKeys(entries[1..], key, value);
        forall i | 0 <= i < |rest|
          ensures Text.Before(first, rest[i].key)
        {
          assert rest[i] in rest;
          if rest[i] in entries[1..] {
            var k :| 0 <= k < |entries[1..]| && entries[1..][k] == rest[i];
            assert entries[k + 1] == rest[i];
          }
        }
      }
    }
  }

  /** A key after all others goes last. */
  lemma {:induction false} InsertLast(entries: seq<Entry>, key: string, value: Json)
    requires forall i :: 0 <= i < |entries| ==> Text.Before(entries[i].key, key)
    ensures Insert(entries, key, value) == entries + [Entry(key, value)]
  {
    if entries != [] {
      Text.BeforeIsTotal(entries[0].key, key);
      assert forall i :: 0 <= i < |entries| - 1 ==> entries[1..][i] == entries[i + 1];
      InsertLast(entries[1..], key, value);
    }
  }

  /** Two objects in key order with the same lookups are the same object. */
  lemma {:induction false} LookupsDecide(a: seq<Entry>, b: seq<Entry>)
    requires Ascending(a) && Ascending(b)
    requires forall key :: Find(a, key) == Find(b, key)
    ensures a == b
  {
    if a != [] {
      assert Find(a, a[0].key).Some?;
    }
    if b != [] {
      assert Find(b, b[0].key).Some?;
    }
    if a != [] {
      SmallestFirst(a, b);
      SmallestFirst(b, a);
      Text.BeforeIsTotal(a[0].key, b[0].key);
      assert Find(a, a[0].key) == Some(a[0].value) && Find(b, b[0].key) == Some(b[0].value);
      forall key
        ensures Find(a[1..], key) == Find(b[1..], key)
      {
        KeyNotAfter(a, key);
        KeyNotAfter(b, key);
        assert Find(a, key) == Find(b, key);
      }
      LookupsDecide(a[1..], b[1..]);
      assert a == [a[0]] + a[1..] && b == [b[0]] + b[1..];
    }
  }

  lemma SmallestFirst(a: seq<Entry>, b: seq<Entry>)
    requires Ascending(a) && a != [] && b != [] && Find(a, b[0].key).Some?
    ensures a[0].key == b[0].key || Text.Before(a[0].key, b[0].key)
  {
  }

  lemma KeyNotAfter(a: seq<Entry>, key: string)
    requires Ascending(a) && a != []
    ensures key == a[0].key ==> Find(a[1..], key).None?
    ensures key != a[0].key ==> Find(a[1..], key) == Find(a, key)
  {
    if key == a[0].key && Find(a[1..], key).Some? {
      var i :| 0 <= i < |a[1..]| && a[1..][i].key == key;
      assert a[i + 1].key == key && Text.Before(a[0].key, a[i + 1].key);
      Text.BeforeIsTotal(key, key);
    }
  }

  // ---- Trees ----

  /** Every object in the tree keeps its entries in key order, as the parser builds them. */
  predicate Parsed(j: Json)
    decreases j, 0
  {
    match j
    case JArr(items) => AllParsed(items)
    case JObj(entries) => Ascending(entries) && EntriesParsed(entries)
    case _ => true
  }

  predicate AllParsed(items: seq<Json>)
    decreases items, 1
  {
    items == [] || (Parsed(items[0]) && AllParsed(items[1..]))
  }

  predicate EntriesParsed(entries: seq<Entry>)
    decreases entries, 1
  {
    entries == [] || (Parsed(entries[0].value) && EntriesParsed(entries[1..]))
  }

  /** Every integer in the tree fits `i64`. */
  predicate FitsI64(j: Json)
    decreases j, 0
  {
    match j
    case JNum(Whole(n)) => n < 0x8000_0000_0000_0000
    case JArr(items) => AllFit(items)
    case JObj(entries) => EntriesFit(entries)
    case _ => true
  }

  predicate AllFit(items: seq<Json>)
    decreases items, 1
  {
    items == [] || (FitsI64(items[0]) && AllFit(items[1..]))
  }

  predicate EntriesFit(entries: seq<Entry>)
    decreases entries, 1
  {
    entries == [] || (FitsI64(entries[0].value) && EntriesFit(entries[1..]))
  }

  function NumberToValue(num: JsonNumber): Value {
    match num
    case Whole(n) => if n < 0x8000_0000_0000_0000 then Int(n) else Float(n as real)
    case Fraction(x) => Float(x)
  }

  function JsonToValue(j: Json): Value
    decreases j, 0
  {
    match j
    case JNull => Null
    case JBool(b) => Bool(b)
    case JNum(num) => NumberToValue(num)
    case JStr(s) => Value.Text(s)
    case JArr(items) => Array(ItemsToValues(items))
    case JObj(entries) => Struct(EntriesToFields(entries))
  }

  function ItemsToValues(items: seq<Json>): (r: seq<Value>)
    ensures |r| == |items|
    decreases items, 1
  {
    if items == [] then [] else [JsonToValue(items[0])] + ItemsToValues(items[1..])
  }

  function EntriesToFields(entries: seq<Entry>): (r: seq<Field>)
    ensures |r| == |entries|
    decreases entries, 1
  {
    if entries == [] then []
    else [Field(entries[0].key, JsonToValue(entries[0].value))] + EntriesToFields(entries[1..])
  }

  function ByteItems(bytes: seq<Byte>): (r: seq<Json>)
    ensures |r| == |bytes|
  {
    seq(|bytes|, i requires 0 <= i < |bytes| => JNum(Whole(bytes[i] as int)))
  }

  function ValueToJson(v: Value): Json
    decreases v, 0
  {
    match v
    case Null => JNull
    case Bool(b) => JBool(b)
    case Int(n) => JNum(Whole(n))
    case Timestamp(n) => JNum(Whole(n))
    case Float(x) => JNum(Fraction(x))
    case Text(s) => JStr(s)
    case Bytes(bytes) => JArr(ByteItems(bytes))
    case Struct(fields) => JObj(FieldsToEntries(fields, []))
    case Array(items) => JArr(ValuesToItems(items))
    case JsonVal(j) => j
  }

  function ValuesToItems(items: seq<Value>): (r: seq<Json>)
    ensures |r| == |items|
    decreases items, 1
  {
    if items == [] then [] else [ValueToJson(items[0])] + ValuesToItems(items[1..])
  }

  /** The fields inserted one by one into the object under construction. */
  function FieldsToEntries(fields: seq<Field>, done: seq<Entry>): seq<Entry>
    decreases fields, 1
  {
    if fields == [] then done
    else FieldsToEntries(fields[1..], Insert(done, fields[0].name, ValueToJson(fields[0].value)))
  }

  function LastNamed(fields: seq<Field>, name: string): Option<Value> {
    if fields == [] then None
    else if LastNamed(fields[1..], name).Some? then LastNamed(fields[1..], name)
    else if fields[0].name == name then Some(fields[0].value)
    else None
  }

  /** Entries stay in key order, and the last of several fields of one name is the one kept. */
  lemma {:induction false} EncodedFinds(fields: seq<Field>, done: seq<Entry>, key: string)
    requires Ascending(done)
    ensures Ascending(FieldsToEntries(fields, done))
    ensures Find(FieldsToEntries(fields, done), key) ==
            match LastNamed(fields, key) case Some(v) => Some(ValueToJson(v)) case None => Find(done, key)
    decreases fields
  {
    if fields != [] {
      var json := ValueToJson(fields[0].value);
      InsertFinds(done, fields[0].name, json, key);
      InsertKeepsOrder(done, fields[0].name, json);
      EncodedFinds(fields[1..], Insert(done, fields[0].name, json), key);
    }
  }

  /** The `Struct` arm's loop. */
  method EncodeFields(fields: seq<Field>) returns (entries: seq<Entry>)
    ensures entries == FieldsToEntries(fields, [])
    ensures Ascending(entries)
    ensures forall key :: Find(entries, key) ==
              match LastNamed(fields, key) case Some(v) => Some(ValueToJson(v)) case None => None
  {
    entries := [];
    for i := 0 to |fields|
      invariant FieldsToEntries(fields, []) == FieldsToEntries(fields[i..], entries)
    {
      assert fields[i..][1..] == fields[i + 1..];
      entries := Insert(entries, fields[i].name, ValueToJson(fields[i].value));
    }
    EncodedFinds(fields, [], "");
    forall key
      ensures Find(entries, key) == match LastNamed(fields, key) case Some(v) => Some(ValueToJson(v)) case None => None
    {
      EncodedFinds(fields, [], key);
    }
  }

  // ---- Round trip ----

  /** Decoding a tree and encoding it again gives the same tree exactly when every integer fits `i64`. */
  lemma {:induction false} RoundTripsExactly(j: Json)
    requires Parsed(j)
    ensures ValueToJson(JsonToValue(j)) == j <==> FitsI64(j)
    decreases j, 0
  {
    match j
    case JArr(items) => ItemsRoundTrip(items);
    case JObj(entries) =>
      EntriesRoundTrip(entries, []);
      assert [] + entries == entries;
    case _ =>
  }

  lemma {:induction false} ItemsRoundTrip(items: seq<Json>)
    requires AllParsed(items)
    ensures ValuesToItems(ItemsToValues(items)) == items <==> AllFit(items)
    decreases items, 1
  {
    if items != [] {
      RoundTripsExactly(items[0]);
      ItemsRoundTrip(items[1..]);
      var values := ItemsToValues(items);
      assert values[1..] == ItemsToValues(items[1..]);
      var back := ValuesToItems(values);
      assert back[0] == ValueToJson(JsonToValue(items[0])) && back[1..] == ValuesToItems(values[1..]);
      assert back == items <==> back[0] == items[0] && back[1..] == items[1..] by {
        assert back == [back[0]] + back[1..] && items == [items[0]] + items[1..];
      }
    }
  }

  function Recoded(entries: seq<Entry>): (r: seq<Entry>)
    ensures |r| == |entries|
    ensures forall i :: 0 <= i < |entries| ==> r[i] == Entry(entries[i].key, ValueToJson(JsonToValue(entries[i].value)))
  {
    seq(|entries|, i requires 0 <= i < |entries| => Entry(entries[i].key, ValueToJson(JsonToValue(entries[i].value))))
  }

  lemma NextGoesLast(done: seq<Entry>, entries: seq<Entry>, next: Entry)
    requires entries != [] && next.key == entries[0].key && Ascending(done + entries)
    ensures Insert(done, next.key, next.value) == done + [next]
    ensures Ascending(done + [next] + entries[1..])
  {
    var all := done + entries;
    assert forall i :: 0 <= i < |done| ==> all[i] == done[i];
    assert all[|done|] == entries[0];
    InsertLast(done, next.key, next.value);
    var more := done + [next] + entries[1..];
    assert |more| == |all|;
    assert forall i :: 0 <= i < |all| ==> more[i].key == all[i].key;
  }

  lemma RecodedFirst(done: seq<Entry>, entries: seq<Entry>, next: Entry)
    requires entries != [] && next == Entry(entries[0].key, ValueToJson(JsonToValue(entries[0].value)))
    ensures done + [next] + Recoded(entries[1..]) == done + Recoded(entries)
  {
    assert Recoded(entries) == [next] + Recoded(entries[1..]);
  }

  /** The fields of an object, encoded after entries with smaller keys, land behind them in order. */
  lemma {:induction false} EntriesRecoded(entries: seq<Entry>, done: seq<Entry>)
    requires Ascending(done + entries)
    ensures FieldsToEntries(EntriesToFields(entries), done) == done + Recoded(entries)
    decreases entries
  {
    if entries == [] {
      assert done + Recoded(entries) == done;
    } else {
      var next := Entry(entries[0].key, ValueToJson(JsonToValue(entries[0].value)));
      NextGoesLast(done, entries, next);
      EntriesRecoded(entries[1..], done + [next]);
      assert EntriesToFields(entries)[1..] == EntriesToFields(entries[1..]);
      RecodedFirst(done, entries, next);
    }
  }

  lemma {:induction false} EntriesRoundTrip(entries: seq<Entry>, done: seq<Entry>)
    requires EntriesParsed(entries) && Ascending(done + entries)
    ensures FieldsToEntries(EntriesToFields(entries), done) == done + entries <==> EntriesFit(entries)
    decreases entries, 1
  {
    EntriesRecoded(entries, done);
    RecodedExactly(entries);
    assert done + Recoded(entries) == done + entries <==> Recoded(entries) == entries by {
      assert (done + Recoded(entries))[|done|..] == Recoded(entries) && (done + entries)[|done|..] == entries;
    }
  }

  lemma {:induction false} RecodedExactly(entries: seq<Entry>)
    requires EntriesParsed(entries)
    ensures Recoded(entries) == entries <==> EntriesFit(entries)
    decreases entries, 0
  {
    if entries != [] {
      RoundTripsExactly(entries[0].value);
      RecodedExactly(entries[1..]);
      var back := Recoded(entries);
      assert back[1..] == Recoded(entries[1..]);
      assert back == [back[0]] + back[1..] && entries == [entries[0]] + entries[1..];
    }
  }

  // ---- Rows ----

  function FieldValues(fields: seq<Field>): (r: seq<Value>)
    ensures |r| == |fields| && forall i :: 0 <= i < |fields| ==> r[i] == fields[i].value
  {
    seq(|fields|, i requires 0 <= i < |fields| => fields[i].value)
  }

  /** An object's entries as cells under inferred columns; any other node is one cell called `value`. */
  function JsonToStruct(node: Json): (Row, Schema) {
    var fields := if node.JObj? then EntriesToFields(node.entries) else [Field("value", JsonToValue(node))];
    (Row(FieldValues(fields)), Schema(FieldColumns(fields)))
  }

  /** The loop over an object's entries, filling cells and columns side by side. */
  method JsonToStructLoop(node: Json) returns (row: Row, schema: Schema)
    ensures (row, schema) == JsonToStruct(node)
  {
    if !node.JObj? {
      var value := JsonToValue(node);
      var fields := [Field("value", value)];
      assert FieldValues(fields) == [value];
      assert fields[1..] == [] && FieldColumns(fields) == [NewColumn("value", TypeOf(value), value.Null?)];
      return Row([value]), Schema([NewColumn("value", TypeOf(value), value.Null?)]);
    }
    var values: seq<Value> := [];
    var columns: seq<Column> := [];
    ghost var fields := EntriesToFields(node.entries);
    for i := 0 to |node.entries|
      invariant values == FieldValues(fields[..i])
      invariant columns + FieldColumns(fields[i..]) == FieldColumns(fields)
    {
      FieldAt(node.entries, i);
      assert fields[i..][1..] == fields[i + 1..];
      var value := JsonToValue(node.entries[i].value);
      var column := NewColumn(node.entries[i].key, TypeOf(value), value.Null?);
      assert columns + ([column] + FieldColumns(fields[i + 1..])) == (columns + [column]) + FieldColumns(fields[i + 1..]);
      columns := columns + [column];
      values := values + [value];
    }
    assert fields[..|fields|] == fields && fields[|fields|..] == [] && columns + [] == columns;
    return Row(values), Schema(columns);
  }

  lemma {:induction false} FieldAt(entries: seq<Entry>, i: nat)
    requires i < |entries|
    ensures EntriesToFields(entries)[i] == Field(entries[i].key, JsonToValue(entries[i].value))
  {
    if i > 0 {
      FieldAt(entries[1..], i - 1);
    }
  }

  lemma {:induction false} ColumnAt(fields: seq<Field>, i: nat)
    requires i < |fields|
    ensures FieldColumns(fields)[i].name == fields[i].name
  {
    if i > 0 {
      ColumnAt(fields[1..], i - 1);
    }
  }

  /** The cell under a name; null where the row lacks the column. */
  function CellNamed(row: Row, schema: Schema, name: string): Value {
    match ColumnIndex(schema.columns, name)
    case Some(k) => if k < |row.values| then row.values[k] else Null
    case None => Null
  }

  function AlignRow(row: Row, rowSchema: Schema, union: Schema): (r: Row)
    ensures |r.values| == |union.columns|
    ensures forall i :: 0 <= i < |union.columns| ==> r.values[i] == CellNamed(row, rowSchema, union.columns[i].name)
  {
    Row(seq(|union.columns|, i requires 0 <= i < |union.columns| => CellNamed(row, rowSchema, union.columns[i].name)))
  }

  function Merge(acc: Option<Schema>, schema: Schema): Option<Schema> {
    Some(if acc.None? then schema else Unify(acc.value, schema))
  }

  /** The running union of the nodes' inferred schemas. */
  function UnionOf(nodes: seq<Json>, acc: Option<Schema>): Option<Schema>
    decreases nodes
  {
    if nodes == [] then acc
    else UnionOf(nodes[1..], Merge(acc, JsonToStruct(nodes[0]).1))
  }

  function Aligned(nodes: seq<Json>, union: Schema): (r: seq<Row>)
    ensures |r| == |nodes|
    ensures forall i :: 0 <= i < |nodes| ==> r[i] == AlignRow(JsonToStruct(nodes[i]).0, JsonToStruct(nodes[i]).1, union)
  {
    seq(|nodes|, i requires 0 <= i < |nodes| => AlignRow(JsonToStruct(nodes[i]).0, JsonToStruct(nodes[i]).1, union))
  }

  function RowsToBatch(nodes: seq<Json>): RowBatch {
    var union := match UnionOf(nodes, None) case Some(s) => s case None => EMPTY_SCHEMA;
    RowBatch(union, Aligned(nodes, union))
  }

  /** The first pass collects every row and its schema, and the running union. */
  method CollectRows(nodes: seq<Json>) returns (rows: seq<(Row, Schema)>, union: Option<Schema>)
    ensures |rows| == |nodes| && forall j :: 0 <= j < |nodes| ==> rows[j] == JsonToStruct(nodes[j])
    ensures union == UnionOf(nodes, None)
  {
    rows, union := [], None;
    ghost var total := UnionOf(nodes, None);
    assert nodes[0..] == nodes;
    for i := 0 to |nodes|
      invariant |rows| == i && forall j :: 0 <= j < i ==> rows[j] == JsonToStruct(nodes[j])
      invariant total == UnionOf(nodes[i..], union)
    {
      var row, rowSchema := JsonToStructLoop(nodes[i]);
      var next := Merge(union, rowSchema);
      UnionStep(nodes, union, i, rowSchema, next);
      union := next;
      rows := rows + [(row, rowSchema)];
    }
    assert nodes[|nodes|..] == [];
  }

  lemma UnionStep(nodes: seq<Json>, union: Option<Schema>, i: nat, schema: Schema, next: Option<Schema>)
    requires i < |nodes| && schema == JsonToStruct(nodes[i]).1 && next == Merge(union, schema)
    ensures UnionOf(nodes[i..], union) == UnionOf(nodes[i + 1..], next)
  {
    assert nodes[i..][1..] == nodes[i + 1..];
  }

  /** The second pass aligns every row to the union. */
  method RowsToBatchLoop(nodes: seq<Json>) returns (batch: RowBatch)
    ensures batch == RowsToBatch(nodes)
  {
    var rows, union := CollectRows(nodes);
    var schema := if union.Some? then union.value else EMPTY_SCHEMA;
    var aligned := AlignAll(rows, schema);
    assert aligned == Aligned(nodes, schema);
    return RowBatch(schema, aligned);
  }

  method AlignAll(rows: seq<(Row, Schema)>, union: Schema) returns (aligned: seq<Row>)
    ensures |aligned| == |rows|
    ensures forall j :: 0 <= j < |rows| ==> aligned[j] == AlignRow(rows[j].0, rows[j].1, union)
  {
    aligned := [];
    for i := 0 to |rows|
      invariant |aligned| == i
      invariant forall j :: 0 <= j < i ==> aligned[j] == AlignRow(rows[j].0, rows[j].1, union)
    {
      aligned := aligned + [AlignRow(rows[i].0, rows[i].1, union)];
    }
  }

  function Zipped(cols: seq<Column>, values: seq<Value>): (r: seq<Field>)
    ensures |r| == if |cols| <= |values| then |cols| else |values|
    ensures forall i :: 0 <= i < |r| ==> r[i] == Field(cols[i].name, values[i])
  {
    var n := if |cols| <= |values| then |cols| else |values|;
    seq(n, i requires 0 <= i < n => Field(cols[i].name, values[i]))
  }

  function RowToJson(row: Row, schema: Schema): Json {
    JObj(FieldsToEntries(Zipped(schema.columns, row.values), []))
  }

  method RowToJsonLoop(row: Row, schema: Schema) returns (j: Json)
    ensures j == RowToJson(row, schema)
  {
    var fields := Zipped(schema.columns, row.values);
    var entries: seq<Entry> := [];
    for i := 0 to |fields|
      invariant FieldsToEntries(fields, []) == FieldsToEntries(fields[i..], entries)
    {
      assert fields[i..][1..] == fields[i + 1..];
      entries := Insert(entries, schema.columns[i].name, ValueToJson(row.values[i]));
    }
    return JObj(entries);
  }

  // ---- The union's names ----

  lemma {:induction false} ColumnsOfObject(entries: seq<Entry>, name: string)
    ensures ColumnIndex(FieldColumns(EntriesToFields(entries)), name).Some? <==> Find(entries, name).Some?
    ensures Find(entries, name).Some? ==>
      var k := ColumnIndex(FieldColumns(EntriesToFields(entries)), name).value;
      k < |entries| && EntriesToFields(entries)[k].value == JsonToValue(Find(entries, name).value)
  {
    if entries != [] {
      var fields := EntriesToFields(entries);
      assert fields[1..] == EntriesToFields(entries[1..]);
      assert FieldColumns(fields)[1..] == FieldColumns(fields[1..]);
      if entries[0].key != name {
        ColumnsOfObject(entries[1..], name);
      }
    }
  }

  lemma ObjectNamesAreDistinct(entries: seq<Entry>)
    requires Ascending(entries)
    ensures DistinctNames(FieldColumns(EntriesToFields(entries)))
  {
    var cols := FieldColumns(EntriesToFields(entries));
    forall i, j | 0 <= i < j < |cols|
      ensures cols[i].name != cols[j].name
    {
      ColumnAt(EntriesToFields(entries), i);
      ColumnAt(EntriesToFields(entries), j);
      FieldAt(entries, i);
      FieldAt(entries, j);
      Text.BeforeIsTotal(entries[i].key, entries[j].key);
      assert Text.Before(entries[i].key, entries[j].key);
    }
  }

  /** A list of parsed objects whose integers all fit `i64`. */
  predicate Objects(nodes: seq<Json>) {
    forall i :: 0 <= i < |nodes| ==> nodes[i].JObj? && Parsed(nodes[i]) && FitsI64(nodes[i])
  }

  predicate SomeHas(nodes: seq<Json>, name: string)
    requires Objects(nodes)
  {
    exists k :: 0 <= k < |nodes| && Find(nodes[k].entries, name).Some?
  }

  predicate HasColumn(schema: Option<Schema>, name: string) {
    schema.Some? && ColumnIndex(schema.value.columns, name).Some?
  }

  lemma {:induction false} UnionNames(nodes: seq<Json>, acc: Option<Schema>, name: string)
    requires Objects(nodes)
    ensures HasColumn(UnionOf(nodes, acc), name) <==> HasColumn(acc, name) || SomeHas(nodes, name)
    decreases nodes
  {
    if nodes != [] {
      var schema := JsonToStruct(nodes[0]).1;
      ColumnsOfObject(nodes[0].entries, name);
      if acc.Some? {
        UnifyNames(acc.value, schema, name);
      }
      UnionNames(nodes[1..], Merge(acc, schema), name);
      SomeHasCons(nodes, name);
    }
  }

  lemma SomeHasCons(nodes: seq<Json>, name: string)
    requires Objects(nodes) && nodes != []
    ensures SomeHas(nodes, name) <==> Find(nodes[0].entries, name).Some? || SomeHas(nodes[1..], name)
  {
    if SomeHas(nodes[1..], name) {
      var k :| 0 <= k < |nodes[1..]| && Find(nodes[1..][k].entries, name).Some?;
      assert Find(nodes[k + 1].entries, name).Some?;
    }
    if SomeHas(nodes, name) {
      var k :| 0 <= k < |nodes| && Find(nodes[k].entries, name).Some?;
      if k > 0 {
        assert Find(nodes[1..][k - 1].entries, name).Some?;
      }
    }
  }

  lemma {:induction false} UnionIsDistinct(nodes: seq<Json>, acc: Option<Schema>)
    requires Objects(nodes) && (acc.Some? ==> DistinctNames(acc.value.columns))
    ensures UnionOf(nodes, acc).Some? ==> DistinctNames(UnionOf(nodes, acc).value.columns)
    decreases nodes
  {
    if nodes != [] {
      var schema := JsonToStruct(nodes[0]).1;
      ObjectNamesAreDistinct(nodes[0].entries);
      if acc.Some? {
        UnifyIsDistinct(acc.value, schema);
      }
      UnionIsDistinct(nodes[1..], Merge(acc, schema));
    }
  }

  // ---- Ragged rows survive ----

  function FieldNamed(fields: seq<Field>, name: string): (r: Option<Value>)
    ensures r.None? ==> forall i :: 0 <= i < |fields| ==> fields[i].name != name
  {
    if fields == [] then None
    else if fields[0].name == name then Some(fields[0].value)
    else FieldNamed(fields[1..], name)
  }

  predicate DistinctFields(fields: seq<Field>) {
    forall i, j :: 0 <= i < j < |fields| ==> fields[i].name != fields[j].name
  }

  lemma {:induction false} LastIsOnly(fields: seq<Field>, key: string)
    requires DistinctFields(fields)
    ensures LastNamed(fields, key) == FieldNamed(fields, key)
  {
    if fields != [] {
      assert forall i :: 0 <= i < |fields| - 1 ==> fields[1..][i] == fields[i + 1];
      LastIsOnly(fields[1..], key);
      if fields[0].name == key {
        NotNamedAgain(fields, key);
      }
    }
  }

  lemma NotNamedAgain(fields: seq<Field>, key: string)
    requires fields != [] && fields[0].name == key && DistinctFields(fields)
    ensures FieldNamed(fields[1..], key).None?
  {
    var rest := fields[1..];
    if FieldNamed(rest, key).Some? {
      FieldNamedAt(rest, key);
    }
  }

  lemma {:induction false} FieldNamedAt(fields: seq<Field>, key: string)
    requires FieldNamed(fields, key).Some?
    ensures exists i :: 0 <= i < |fields| && fields[i] == Field(key, FieldNamed(fields, key).value)
  {
    if fields[0].name == key {
      assert fields[0] == Field(key, FieldNamed(fields, key).value);
    } else {
      FieldNamedAt(fields[1..], key);
      var i :| 0 <= i < |fields[1..]| && fields[1..][i] == Field(key, FieldNamed(fields, key).value);
      assert fields[i + 1] == Field(key, FieldNamed(fields, key).value);
    }
  }

  lemma {:induction false} ZippedNamed(cols: seq<Column>, values: seq<Value>, name: string)
    requires |cols| == |values|
    ensures FieldNamed(Zipped(cols, values), name) ==
            match ColumnIndex(cols, name) case Some(k) => Some(values[k]) case None => None
  {
    if cols != [] {
      assert Zipped(cols, values)[1..] == Zipped(cols[1..], values[1..]);
      ZippedNamed(cols[1..], values[1..], name);
    }
  }

  lemma {:induction false} EntryFits(entries: seq<Entry>, name: string)
    requires EntriesParsed(entries) && EntriesFit(entries) && Find(entries, name).Some?
    ensures Parsed(Find(entries, name).value) && FitsI64(Find(entries, name).value)
  {
    if entries[0].key != name {
      EntryFits(entries[1..], name);
    }
  }

  /** The object with a null for each column it lacks. */
  function Padded(entries: seq<Entry>, cols: seq<Column>): seq<Entry>
    decreases cols
  {
    if cols == [] then entries
    else Padded(if Find(entries, cols[0].name).Some? then entries else Insert(entries, cols[0].name, JNull), cols[1..])
  }

  lemma {:induction false} PaddedFinds(entries: seq<Entry>, cols: seq<Column>, key: string)
    requires Ascending(entries)
    ensures Ascending(Padded(entries, cols))
    ensures Find(Padded(entries, cols), key) ==
            if Find(entries, key).Some? then Find(entries, key)
            else if ColumnIndex(cols, key).Some? then Some(JNull) else None
    decreases cols
  {
    if cols != [] {
      var name := cols[0].name;
      if Find(entries, name).None? {
        InsertFinds(entries, name, JNull, key);
        InsertKeepsOrder(entries, name, JNull);
        PaddedFinds(Insert(entries, name, JNull), cols[1..], key);
      } else {
        PaddedFinds(entries, cols[1..], key);
      }
    }
  }

  /** The cell a union column gets from an object encodes to the object's entry, or to null. */
  lemma CellSurvives(entries: seq<Entry>, name: string)
    requires EntriesParsed(entries) && EntriesFit(entries)
    ensures var (row, schema) := JsonToStruct(JObj(entries));
            ValueToJson(CellNamed(row, schema, name)) == if Find(entries, name).Some? then Find(entries, name).value else JNull
  {
    ColumnsOfObject(entries, name);
    if Find(entries, name).Some? {
      EntryFits(entries, name);
      RoundTripsExactly(Find(entries, name).value);
    }
  }

  /** An object aligned to any schema that has all its names encodes to the object padded to that schema. */
  lemma AlignedRowEncodes(entries: seq<Entry>, union: Schema)
    requires Ascending(entries) && EntriesParsed(entries) && EntriesFit(entries) && DistinctNames(union.columns)
    requires forall key :: Find(entries, key).Some? ==> ColumnIndex(union.columns, key).Some?
    ensures var (row, schema) := JsonToStruct(JObj(entries));
            RowToJson(AlignRow(row, schema, union), union) == JObj(Padded(entries, union.columns))
  {
    var (row, schema) := JsonToStruct(JObj(entries));
    var aligned := AlignRow(row, schema, union);
    var fields := Zipped(union.columns, aligned.values);
    EncodedFinds(fields, [], "");
    PaddedFinds(entries, union.columns, "");
    forall key
      ensures Find(FieldsToEntries(fields, []), key) == Find(Padded(entries, union.columns), key)
    {
      EncodedFinds(fields, [], key);
      LastIsOnly(fields, key);
      PaddedFinds(entries, union.columns, key);
      ZippedNamed(union.columns, aligned.values, key);
      if ColumnIndex(union.columns, key).Some? {
        CellSurvives(entries, key);
      }
    }
    LookupsDecide(FieldsToEntries(fields, []), Padded(entries, union.columns));
  }

  /**
   Ragged rows survive the batch: it is rectangular, its columns are the objects' names, each once, and
   encoding row `i` gives object `i` padded with null.
   */
  lemma RaggedRowsSurvive(nodes: seq<Json>, i: nat)
    requires Objects(nodes) && i < |nodes|
    ensures var b := RowsToBatch(nodes);
            && |b.rows| == |nodes|
            && |b.rows[i].values| == |b.schema.columns|
            && DistinctNames(b.schema.columns)
            && (forall name :: ColumnIndex(b.schema.columns, name).Some? <==> SomeHas(nodes, name))
            && RowToJson(b.rows[i], b.schema) == JObj(Padded(nodes[i].entries, b.schema.columns))
  {
    UnionIsSome(nodes, None);
    UnionIsDistinct(nodes, None);
    var union := UnionOf(nodes, None).value;
    forall name
      ensures ColumnIndex(union.columns, name).Some? <==> SomeHas(nodes, name)
    {
      UnionNames(nodes, None, name);
    }
    forall key | Find(nodes[i].entries, key).Some?
      ensures ColumnIndex(union.columns, key).Some?
    {
      assert SomeHas(nodes, key);
    }
    AlignedRowEncodes(nodes[i].entries, union);
  }

  lemma {:induction false} UnionIsSome(nodes: seq<Json>, acc: Option<Schema>)
    ensures nodes != [] || acc.Some? ==> UnionOf(nodes, acc).Some?
    decreases nodes
  {
    if nodes != [] {
      UnionIsSome(nodes[1..], Merge(acc, JsonToStruct(nodes[0]).1));
    }
  }
}
