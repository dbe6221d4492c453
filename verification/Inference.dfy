/** What an inferred schema says of the rows it was inferred from, and exactly when they conform to it. */
module Inference {
  import opened Wrappers
  import opened Types
  import opened Schemas
  import opened Values
  import opened Widening
  import opened Codec
  import Text

  // ---- Values as the decoder builds them ----

  /** A decoded value: no carrier kinds, and every struct's names in key order. */
  predicate Decoded(v: Value)
    decreases v, 0
  {
    match v
    case Struct(fields) => KeysAscend(fields) && FieldsDecoded(fields)
    case Array(items) => AllDecoded(items)
    case _ => !v.Bytes? && !v.Timestamp? && !v.JsonVal?
  }

  predicate AllDecoded(vals: seq<Value>)
    decreases vals, 1
  {
    forall i :: 0 <= i < |vals| ==> Decoded(vals[i])
  }

  predicate FieldsDecoded(fields: seq<Field>)
    decreases fields, 1
  {
    forall i :: 0 <= i < |fields| ==> Decoded(fields[i].value)
  }

  predicate KeysAscend(fields: seq<Field>) {
    forall i, j :: 0 <= i < j < |fields| ==> Text.Before(fields[i].name, fields[j].name)
  }

  function Keys(fields: seq<Field>): (keys: seq<string>)
    ensures |keys| == |fields| && forall i :: 0 <= i < |fields| ==> keys[i] == fields[i].name
  {
    seq(|fields|, i requires 0 <= i < |fields| => fields[i].name)
  }

  function FieldOf(v: Value, name: string): Option<Value> {
    if v.Struct? then FieldNamed(v.fields, name) else None
  }

  // ---- What is seen of a list of values ----

  datatype Kind = Nothing | Truth | Number | Words | Record | List | Mixed

  function KindOf(v: Value): Kind {
    match v
    case Null => Nothing
    case Bool(_) => Truth
    case Int(_) => Number
    case Float(_) => Number
    case Text(_) => Words
    case Struct(_) => Record
    case Array(_) => List
    case _ => Mixed
  }

  function Both(a: Kind, b: Kind): Kind {
    if a == Nothing then b else if b == Nothing || a == b then a else Mixed
  }

  /** The one kind of all that is not null, or `Mixed`. */
  function KindAll(vals: seq<Value>): Kind {
    if vals == [] then Nothing else Both(KindOf(vals[0]), KindAll(vals[1..]))
  }

  predicate SomeInt(vals: seq<Value>) {
    exists i :: 0 <= i < |vals| && vals[i].Int?
  }

  predicate SomeFloat(vals: seq<Value>) {
    exists i :: 0 <= i < |vals| && vals[i].Float?
  }

  /** The elements of all the arrays, one array after another. */
  function Items(vals: seq<Value>): seq<Value> {
    if vals == [] then [] else (if vals[0].Array? then vals[0].items else []) + Items(vals[1..])
  }

  function Held(v: Value, name: string): seq<Value> {
    match FieldOf(v, name)
    case Some(x) => [x]
    case None => []
  }

  /** What the structs that have the name hold under it, one after another. */
  function At(vals: seq<Value>, name: string): seq<Value> {
    if vals == [] then [] else Held(vals[0], name) + At(vals[1..], name)
  }

  /** A struct among the values lacks the name, or holds null under it. */
  predicate Lacking(vals: seq<Value>, name: string) {
    exists i :: 0 <= i < |vals| && vals[i].Struct? && Absent(FieldOf(vals[i], name))
  }

  predicate Absent(v: Option<Value>) {
    v.None? || v.value.Null?
  }

  /** The structs all have the same names, in the same order. */
  predicate SameKeys(vals: seq<Value>) {
    forall i, j :: 0 <= i < |vals| && 0 <= j < |vals| && vals[i].Struct? && vals[j].Struct? ==> Keys(vals[i].fields) == Keys(vals[j].fields)
  }

  // ---- Uniform values ----

  function Depth(v: Value): nat
    decreases v, 0
  {
    match v
    case Array(items) => 1 + DepthAll(items)
    case Struct(fields) => 1 + DepthFields(fields)
    case _ => 0
  }

  function DepthAll(vals: seq<Value>): nat
    decreases vals, 1
  {
    if vals == [] then 0 else if Depth(vals[0]) >= DepthAll(vals[1..]) then Depth(vals[0]) else DepthAll(vals[1..])
  }

  function DepthFields(fields: seq<Field>): nat
    decreases fields, 1
  {
    if fields == [] then 0
    else if Depth(fields[0].value) >= DepthFields(fields[1..]) then Depth(fields[0].value) else DepthFields(fields[1..])
  }

  lemma {:induction false} DepthConcat(a: seq<Value>, b: seq<Value>)
    ensures DepthAll(a + b) == if DepthAll(a) >= DepthAll(b) then DepthAll(a) else DepthAll(b)
  {
    if a == [] {
      assert a + b == b;
    } else {
      assert (a + b)[0] == a[0] && (a + b)[1..] == a[1..] + b;
      DepthConcat(a[1..], b);
    }
  }

  lemma {:induction false} FieldIsShallow(fields: seq<Field>, name: string)
    ensures FieldNamed(fields, name).Some? ==> Depth(FieldNamed(fields, name).value) <= DepthFields(fields)
  {
    if fields != [] {
      FieldIsShallow(fields[1..], name);
    }
  }

  lemma {:induction false} PartsAreShallow(vals: seq<Value>, name: string)
    ensures DepthAll(Items(vals)) <= if DepthAll(vals) == 0 then 0 else DepthAll(vals) - 1
    ensures DepthAll(At(vals, name)) <= if DepthAll(vals) == 0 then 0 else DepthAll(vals) - 1
  {
    if vals != [] {
      PartsAreShallow(vals[1..], name);
      DepthConcat(if vals[0].Array? then vals[0].items else [], Items(vals[1..]));
      DepthConcat(Held(vals[0], name), At(vals[1..], name));
      if vals[0].Struct? {
        FieldIsShallow(vals[0].fields, name);
      }
      if FieldOf(vals[0], name).Some? {
        assert Held(vals[0], name)[1..] == [];
      }
    }
  }

  lemma {:induction false} CollectionsAreDeep(vals: seq<Value>)
    requires KindAll(vals) == List || KindAll(vals) == Record
    ensures DepthAll(vals) > 0
  {
    if KindOf(vals[0]) == Nothing {
      CollectionsAreDeep(vals[1..]);
    }
  }

  /**
   Values that share a type all of them conform to: of several kinds, or of one, and then no integer among
   floats, uniform elements throughout the arrays, and the same names with uniform values in the structs.
   */
  ghost predicate Uniform(vals: seq<Value>)
    decreases DepthAll(vals)
  {
    match KindAll(vals)
    case Number => !SomeInt(vals) || !SomeFloat(vals)
    case List =>
      CollectionsAreDeep(vals);
      PartsAreShallow(vals, "");
      Uniform(Items(vals))
    case Record =>
      CollectionsAreDeep(vals);
      SameKeys(vals) && forall name :: (PartsAreShallow(vals, name); Uniform(At(vals, name)))
    case _ => true
  }

  // ---- A type that joins values ----

  /** The type says no more and no less of the values than what can be seen of them. */
  ghost predicate Joins(ty: ColumnType, vals: seq<Value>)
    decreases ty
  {
    match KindAll(vals)
    case Nothing => ty == TUnknown
    case Truth => ty == TBool
    case Number => ty == if SomeFloat(vals) then TFloat else TInt
    case Words => ty == TText
    case Mixed => ty == TJson
    case List => ty.TArray? && Joins(ty.elem, Items(vals))
    case Record =>
      && ty.TStruct?
      && DistinctNames(ty.schema.columns)
      && (forall name :: ColumnIndex(ty.schema.columns, name).Some? <==> At(vals, name) != [])
      && (forall i :: 0 <= i < |ty.schema.columns| ==> ColumnJoins(ty.schema.columns[i], vals))
      && InStep(ty.schema.columns, vals)
  }

  ghost predicate ColumnJoins(c: Column, vals: seq<Value>)
    decreases c
  {
    Joins(c.ty, At(vals, c.name)) && (c.nullable <==> Lacking(vals, c.name))
  }

  predicate InStep(cols: seq<Column>, vals: seq<Value>) {
    SameKeys(vals) ==> forall i :: 0 <= i < |vals| && vals[i].Struct? ==> Listed(cols, vals[i].fields)
  }

  predicate Listed(cols: seq<Column>, fields: seq<Field>) {
    |cols| == |fields| && forall i :: 0 <= i < |cols| ==> cols[i].name == fields[i].name
  }

  // ---- Seeing a concatenation ----

  lemma {:induction false} KindConcat(a: seq<Value>, b: seq<Value>)
    ensures KindAll(a + b) == Both(KindAll(a), KindAll(b))
  {
    if a == [] {
      assert a + b == b;
    } else {
      assert (a + b)[0] == a[0] && (a + b)[1..] == a[1..] + b;
      KindConcat(a[1..], b);
    }
  }

  lemma {:induction false} ItemsConcat(a: seq<Value>, b: seq<Value>)
    ensures Items(a + b) == Items(a) + Items(b)
  {
    if a == [] {
      assert a + b == b;
    } else {
      assert (a + b)[0] == a[0] && (a + b)[1..] == a[1..] + b;
      ItemsConcat(a[1..], b);
    }
  }

  lemma {:induction false} AtConcat(a: seq<Value>, b: seq<Value>, name: string)
    ensures At(a + b, name) == At(a, name) + At(b, name)
  {
    if a == [] {
      assert a + b == b;
    } else {
      assert (a + b)[0] == a[0] && (a + b)[1..] == a[1..] + b;
      AtConcat(a[1..], b, name);
    }
  }

  lemma IndexConcat(a: seq<Value>, b: seq<Value>)
    ensures forall i :: 0 <= i < |a| ==> (a + b)[i] == a[i]
    ensures forall i :: 0 <= i < |b| ==> (a + b)[|a| + i] == b[i]
    ensures forall i :: |a| <= i < |a| + |b| ==> (a + b)[i] == b[i - |a|]
  {
  }

  lemma FloatConcat(a: seq<Value>, b: seq<Value>)
    ensures SomeFloat(a + b) <==> SomeFloat(a) || SomeFloat(b)
  {
    IndexConcat(a, b);
  }

  lemma LackingConcat(a: seq<Value>, b: seq<Value>, name: string)
    ensures Lacking(a + b, name) <==> Lacking(a, name) || Lacking(b, name)
  {
    IndexConcat(a, b);
  }

  lemma SameKeysParts(a: seq<Value>, b: seq<Value>)
    requires SameKeys(a + b)
    ensures SameKeys(a) && SameKeys(b)
    ensures forall i, j :: 0 <= i < |a| && 0 <= j < |b| && a[i].Struct? && b[j].Struct? ==> Keys(a[i].fields) == Keys(b[j].fields)
  {
    IndexConcat(a, b);
    forall i, j | 0 <= i < |a| && 0 <= j < |b| && a[i].Struct? && b[j].Struct?
      ensures Keys(a[i].fields) == Keys(b[j].fields)
    {
      assert (a + b)[i] == a[i] && (a + b)[|a| + j] == b[j];
    }
    forall i, j | 0 <= i < |b| && 0 <= j < |b| && b[i].Struct? && b[j].Struct?
      ensures Keys(b[i].fields) == Keys(b[j].fields)
    {
      assert (a + b)[|a| + i] == b[i] && (a + b)[|a| + j] == b[j];
    }
  }

  lemma {:induction false} AllNull(vals: seq<Value>)
    requires KindAll(vals) == Nothing
    ensures forall i :: 0 <= i < |vals| ==> vals[i].Null?
    ensures Items(vals) == [] && forall name :: At(vals, name) == []
  {
    if vals != [] {
      AllNull(vals[1..]);
    }
  }

  lemma {:induction false} SomeStruct(vals: seq<Value>) returns (i: nat)
    requires KindAll(vals) == Record
    ensures i < |vals| && vals[i].Struct?
  {
    if vals[0].Struct? {
      i := 0;
    } else {
      i := SomeStruct(vals[1..]);
      i := i + 1;
    }
  }

  /** Two lists of values that look alike to a type. */
  ghost predicate Seen(a: seq<Value>, b: seq<Value>) {
    && KindAll(a) == KindAll(b) && (SomeFloat(a) <==> SomeFloat(b)) && Items(a) == Items(b)
    && (forall name :: At(a, name) == At(b, name))
    && (forall name :: Lacking(a, name) <==> Lacking(b, name))
    && (forall cols :: InStep(cols, a) <==> InStep(cols, b))
  }

  lemma JoinsSeen(ty: ColumnType, a: seq<Value>, b: seq<Value>)
    requires Joins(ty, a) && Seen(a, b)
    ensures Joins(ty, b)
  {
    if KindAll(a) == Record {
      forall i | 0 <= i < |ty.schema.columns|
        ensures ColumnJoins(ty.schema.columns[i], b)
      {
        assert ColumnJoins(ty.schema.columns[i], a);
      }
    }
  }

  lemma InStepPast(cols: seq<Column>, nulls: seq<Value>, vals: seq<Value>, all: seq<Value>)
    requires forall i :: 0 <= i < |nulls| ==> nulls[i].Null?
    requires all == nulls + vals || all == vals + nulls
    ensures InStep(cols, all) <==> InStep(cols, vals)
  {
    var shift := if all == vals + nulls then 0 else |nulls|;
    assert forall i :: 0 <= i < |vals| ==> all[shift + i] == vals[i];
    assert forall i :: 0 <= i < |all| && all[i].Struct? ==> shift <= i < shift + |vals| && all[i] == vals[i - shift];
    assert SameKeys(all) <==> SameKeys(vals) by {
      if SameKeys(all) {
        forall i, j | 0 <= i < |vals| && 0 <= j < |vals| && vals[i].Struct? && vals[j].Struct?
          ensures Keys(vals[i].fields) == Keys(vals[j].fields)
        {
          assert all[shift + i] == vals[i] && all[shift + j] == vals[j];
        }
      }
    }
    if InStep(cols, all) && SameKeys(all) {
      forall i | 0 <= i < |vals| && vals[i].Struct?
        ensures Listed(cols, vals[i].fields)
      {
        assert all[shift + i] == vals[i];
      }
    }
  }

  /** Nulls before or behind change nothing. */
  lemma NullsUnseen(nulls: seq<Value>, vals: seq<Value>, all: seq<Value>)
    requires KindAll(nulls) == Nothing && (all == nulls + vals || all == vals + nulls)
    ensures Seen(vals, all)
  {
    AllNull(nulls);
    var (a, b) := if all == nulls + vals then (nulls, vals) else (vals, nulls);
    KindConcat(a, b);
    ItemsConcat(a, b);
    FloatConcat(a, b);
    forall name
      ensures At(vals, name) == At(all, name) && (Lacking(vals, name) <==> Lacking(all, name))
    {
      AtConcat(a, b, name);
      LackingConcat(a, b, name);
    }
    forall cols: seq<Column>
      ensures InStep(cols, vals) <==> InStep(cols, all)
    {
      InStepPast(cols, nulls, vals, all);
    }
  }

  // ---- Widening joins ----

  /** The kind of the values is the shape of the type. */
  lemma KindIsShape(ty: ColumnType, vals: seq<Value>)
    requires Joins(ty, vals)
    ensures match KindAll(vals)
            case Nothing => ty.TUnknown?
            case Truth => ty.TBool?
            case Number => ty.TInt? || ty.TFloat?
            case Words => ty.TText?
            case Mixed => ty.TJson?
            case List => ty.TArray?
            case Record => ty.TStruct?
  {
  }

  /** The widening of two types joins what either of them joins. */
  lemma {:induction false} WidenJoins(a: ColumnType, xs: seq<Value>, b: ColumnType, ys: seq<Value>)
    requires Joins(a, xs) && Joins(b, ys)
    ensures Joins(Widen(a, b), xs + ys)
    decreases a
  {
    KindConcat(xs, ys);
    KindIsShape(a, xs);
    KindIsShape(b, ys);
    if KindAll(xs) == Nothing {
      NullsUnseen(xs, ys, xs + ys);
      JoinsSeen(b, ys, xs + ys);
    } else if KindAll(ys) == Nothing {
      NullsUnseen(ys, xs, xs + ys);
      JoinsSeen(a, xs, xs + ys);
    } else if KindAll(xs) != KindAll(ys) {
      assert Widen(a, b) == TJson;
    } else if KindAll(xs) == List {
      ItemsConcat(xs, ys);
      WidenJoins(a.elem, Items(xs), b.elem, Items(ys));
    } else if KindAll(xs) == Record {
      UnifyJoins(a.schema, xs, b.schema, ys);
    } else {
      FloatConcat(xs, ys);
    }
  }

  lemma {:induction false} UnifyJoins(a: Schema, xs: seq<Value>, b: Schema, ys: seq<Value>)
    requires KindAll(xs) == Record && KindAll(ys) == Record && Joins(TStruct(a), xs) && Joins(TStruct(b), ys)
    ensures Joins(TStruct(Unify(a, b)), xs + ys)
    decreases a
  {
    var w := Unify(a, b);
    KindConcat(xs, ys);
    UnifyIsDistinct(a, b);
    forall name
      ensures ColumnIndex(w.columns, name).Some? <==> At(xs + ys, name) != []
    {
      UnifyNames(a, b, name);
      AtConcat(xs, ys, name);
    }
    forall i | 0 <= i < |w.columns|
      ensures ColumnJoins(w.columns[i], xs + ys)
    {
      FindOwn(w, i);
      UnifiedColumnJoins(a, xs, b, ys, w.columns[i]);
    }
    UnifyInStep(a, xs, b, ys);
  }

  /** Names a side lacks are lacking in each of its structs. */
  lemma {:induction false} AbsentIsLacking(vals: seq<Value>, name: string)
    requires KindAll(vals) == Record && At(vals, name) == []
    ensures Lacking(vals, name)
  {
    var i := SomeStruct(vals);
    NotHeld(vals, name, i);
  }

  lemma {:induction false} NotHeld(vals: seq<Value>, name: string, i: nat)
    requires At(vals, name) == [] && i < |vals|
    ensures FieldOf(vals[i], name).None?
  {
    if i > 0 {
      NotHeld(vals[1..], name, i - 1);
    }
  }

  lemma {:induction false} UnifiedColumnJoins(a: Schema, xs: seq<Value>, b: Schema, ys: seq<Value>, c: Column)
    requires KindAll(xs) == Record && KindAll(ys) == Record && Joins(TStruct(a), xs) && Joins(TStruct(b), ys)
    requires FindColumn(Unify(a, b), c.name) == Some(c)
    ensures ColumnJoins(c, xs + ys)
    decreases a, 0
  {
    UnifyLookup(a, b, c.name);
    AtConcat(xs, ys, c.name);
    LackingConcat(xs, ys, c.name);
    var i, j := ColumnIndex(a.columns, c.name), ColumnIndex(b.columns, c.name);
    assert i.Some? ==> ColumnJoins(a.columns[i.value], xs);
    assert j.Some? ==> ColumnJoins(b.columns[j.value], ys);
    if i.Some? && j.Some? {
      WidenJoins(a.columns[i.value].ty, At(xs, c.name), b.columns[j.value].ty, At(ys, c.name));
    } else if i.Some? {
      AbsentIsLacking(ys, c.name);
      assert At(xs, c.name) + [] == At(xs, c.name);
    } else {
      AbsentIsLacking(xs, c.name);
      assert [] + At(ys, c.name) == At(ys, c.name);
    }
  }

  lemma UnifyInStep(a: Schema, xs: seq<Value>, b: Schema, ys: seq<Value>)
    requires KindAll(xs) == Record && KindAll(ys) == Record && InStep(a.columns, xs) && InStep(b.columns, ys)
    ensures InStep(Unify(a, b).columns, xs + ys)
  {
    if SameKeys(xs + ys) {
      SameKeysParts(xs, ys);
      var i := SomeStruct(xs);
      var j := SomeStruct(ys);
      assert Keys(xs[i].fields) == Keys(ys[j].fields);
      SameColumns(a, b, xs[i].fields, ys[j].fields);
      forall k | 0 <= k < |xs + ys| && (xs + ys)[k].Struct?
        ensures Listed(Unify(a, b).columns, (xs + ys)[k].fields)
      {
        IndexConcat(xs, ys);
        assert (xs + ys)[i] == xs[i];
        assert Keys((xs + ys)[k].fields) == Keys((xs + ys)[i].fields);
        ListedByKeys(Unify(a, b).columns, xs[i].fields, (xs + ys)[k].fields);
      }
    }
  }

  lemma ListedByKeys(cols: seq<Column>, x: seq<Field>, y: seq<Field>)
    requires Listed(cols, x) && Keys(x) == Keys(y)
    ensures Listed(cols, y)
  {
    forall i | 0 <= i < |cols|
      ensures cols[i].name == y[i].name
    {
      assert Keys(x)[i] == Keys(y)[i];
    }
  }

  /** Unifying schemas with the same names in the same order keeps them so. */
  lemma SameColumns(a: Schema, b: Schema, x: seq<Field>, y: seq<Field>)
    requires Listed(a.columns, x) && Listed(b.columns, y) && Keys(x) == Keys(y)
    ensures Listed(Unify(a, b).columns, x)
  {
    ListedByKeys(b.columns, y, x);
    forall i | 0 <= i < |b.columns|
      ensures ColumnIndex(a.columns, b.columns[i].name).Some?
    {
      assert a.columns[i].name == b.columns[i].name;
    }
    NothingOnlyIn(b.columns, a.columns);
  }

  // ---- A value's own type joins it, and an array's element type its elements ----

  lemma JoinsNothing()
    ensures Joins(TUnknown, [])
  {
  }

  lemma {:induction false} TypeJoins(v: Value)
    requires Decoded(v)
    ensures Joins(TypeOf(v), [v])
    decreases v, 0
  {
    OneSeen(v);
    match v
    case Array(items) =>
      JoinsNothing();
      FoldJoins(items, TUnknown, []);
      assert [] + items == items;
    case Struct(fields) =>
      forall i | 0 <= i < |fields|
        ensures Joins(TypeOf(fields[i].value), [fields[i].value])
      {
        TypeJoins(fields[i].value);
      }
      StructJoins(v);
    case _ =>
  }

  lemma {:induction false} FoldJoins(items: seq<Value>, acc: ColumnType, seen: seq<Value>)
    requires AllDecoded(items) && Joins(acc, seen)
    ensures Joins(WidenAll(items, acc), seen + items)
    decreases items, 1
  {
    if items == [] {
      assert seen + items == seen;
    } else {
      TypeJoins(items[0]);
      WidenJoins(acc, seen, TypeOf(items[0]), [items[0]]);
      assert forall i :: 0 <= i < |items| - 1 ==> items[1..][i] == items[i + 1];
      FoldJoins(items[1..], Widen(acc, TypeOf(items[0])), seen + [items[0]]);
      assert seen + [items[0]] + items[1..] == seen + items;
    }
  }

  lemma OneSeen(v: Value)
    ensures KindAll([v]) == KindOf(v) && (SomeFloat([v]) <==> v.Float?)
    ensures Items([v]) == if v.Array? then v.items else []
    ensures forall name :: At([v], name) == Held(v, name)
    ensures forall name :: Lacking([v], name) <==> v.Struct? && Absent(FieldOf(v, name))
  {
    assert [v][1..] == [] && [v][0] == v;
    assert v.Float? ==> [v][0].Float?;
    forall name
      ensures At([v], name) == Held(v, name)
      ensures Lacking([v], name) <==> v.Struct? && Absent(FieldOf(v, name))
    {
      assert Held(v, name) + [] == Held(v, name);
      assert [v][0].Struct? && Absent(FieldOf([v][0], name)) ==> Lacking([v], name);
    }
    if v.Array? {
      assert v.items + [] == v.items;
    }
  }

  lemma {:induction false} ColumnOfField(fields: seq<Field>, i: nat)
    requires i < |fields|
    ensures FieldColumns(fields)[i] == NewColumn(fields[i].name, TypeOf(fields[i].value), fields[i].value.Null?)
  {
    if i > 0 {
      ColumnOfField(fields[1..], i - 1);
    }
  }

  lemma AscendingIsDistinct(fields: seq<Field>, i: nat, j: nat)
    requires KeysAscend(fields) && i < j < |fields|
    ensures fields[i].name != fields[j].name
  {
    Text.BeforeIsTotal(fields[i].name, fields[j].name);
  }

  lemma {:induction false} FieldNamedIs(fields: seq<Field>, i: nat)
    requires KeysAscend(fields) && i < |fields|
    ensures FieldNamed(fields, fields[i].name) == Some(fields[i].value)
  {
    if i > 0 {
      AscendingIsDistinct(fields, 0, i);
      assert forall k :: 0 <= k < |fields| - 1 ==> fields[1..][k] == fields[k + 1];
      FieldNamedIs(fields[1..], i - 1);
    }
  }

  lemma StructJoins(v: Value)
    requires v.Struct? && Decoded(v)
    requires forall i :: 0 <= i < |v.fields| ==> Joins(TypeOf(v.fields[i].value), [v.fields[i].value])
    ensures Joins(TypeOf(v), [v])
  {
    var fields, cols := v.fields, FieldColumns(v.fields);
    OneSeen(v);
    forall i | 0 <= i < |cols|
      ensures cols[i].name == fields[i].name && ColumnJoins(cols[i], [v])
    {
      ColumnOfField(fields, i);
      FieldNamedIs(fields, i);
    }
    forall i, j | 0 <= i < j < |cols|
      ensures cols[i].name != cols[j].name
    {
      AscendingIsDistinct(fields, i, j);
    }
    forall name
      ensures ColumnIndex(cols, name).Some? <==> At([v], name) != []
    {
      NamedIsColumn(fields, cols, name);
    }
  }

  lemma NamedIsColumn(fields: seq<Field>, cols: seq<Column>, name: string)
    requires Listed(cols, fields)
    ensures ColumnIndex(cols, name).Some? <==> FieldNamed(fields, name).Some?
  {
    if FieldNamed(fields, name).Some? {
      FieldNamedAt(fields, name);
    }
  }

  // ---- Conforming to a joining type ----

  /** Every value conforms to the type, or is null. */
  predicate Fit(vals: seq<Value>, ty: ColumnType) {
    forall i :: 0 <= i < |vals| ==> Conforms(vals[i], ty, true)
  }

  lemma FitConcat(a: seq<Value>, b: seq<Value>, ty: ColumnType)
    ensures Fit(a + b, ty) <==> Fit(a, ty) && Fit(b, ty)
  {
    IndexConcat(a, b);
    if Fit(a + b, ty) {
      forall i | 0 <= i < |a|
        ensures Conforms(a[i], ty, true)
      {
        assert (a + b)[i] == a[i];
      }
      forall i | 0 <= i < |b|
        ensures Conforms(b[i], ty, true)
      {
        assert (a + b)[|a| + i] == b[i];
      }
    }
  }

  lemma {:induction false} FitIsAllConform(items: seq<Value>, ty: ColumnType)
    ensures Fit(items, ty) <==> AllConform(items, ty)
  {
    if items != [] {
      FitIsAllConform(items[1..], ty);
      assert items == [items[0]] + items[1..];
      FitConcat([items[0]], items[1..], ty);
      assert Fit([items[0]], ty) <==> Conforms(items[0], ty, true) by {
        assert [items[0]][0] == items[0];
      }
    }
  }

  lemma {:induction false} KindEach(vals: seq<Value>, i: nat)
    requires i < |vals| && KindAll(vals) != Mixed
    ensures vals[i].Null? || KindOf(vals[i]) == KindAll(vals)
  {
    if i > 0 {
      KindEach(vals[1..], i - 1);
    }
  }

  lemma {:induction false} FitItems(vals: seq<Value>, elem: ColumnType)
    requires forall i :: 0 <= i < |vals| ==> vals[i].Null? || vals[i].Array?
    ensures Fit(vals, TArray(elem)) <==> Fit(Items(vals), elem)
  {
    if vals != [] {
      var own := if vals[0].Array? then vals[0].items else [];
      FitItems(vals[1..], elem);
      FitIsAllConform(own, elem);
      FitConcat(own, Items(vals[1..]), elem);
      assert vals == [vals[0]] + vals[1..];
      FitConcat([vals[0]], vals[1..], TArray(elem));
      assert Fit([vals[0]], TArray(elem)) <==> Conforms(vals[0], TArray(elem), true) by {
        assert [vals[0]][0] == vals[0];
      }
    }
  }

  lemma {:induction false} ItemsDecoded(vals: seq<Value>)
    requires AllDecoded(vals)
    ensures AllDecoded(Items(vals))
  {
    if vals != [] {
      assert forall i :: 0 <= i < |vals| - 1 ==> vals[1..][i] == vals[i + 1];
      ItemsDecoded(vals[1..]);
      assert Decoded(vals[0]);
      DecodedConcat(if vals[0].Array? then vals[0].items else [], Items(vals[1..]));
    }
  }

  lemma DecodedConcat(a: seq<Value>, b: seq<Value>)
    requires AllDecoded(a) && AllDecoded(b)
    ensures AllDecoded(a + b)
  {
    IndexConcat(a, b);
  }

  lemma HeldDecoded(v: Value, name: string)
    requires Decoded(v)
    ensures AllDecoded(Held(v, name))
  {
    if v.Struct? && FieldNamed(v.fields, name).Some? {
      FieldNamedAt(v.fields, name);
      var i :| 0 <= i < |v.fields| && v.fields[i] == Field(name, FieldNamed(v.fields, name).value);
      assert Decoded(v.fields[i].value);
    }
  }

  lemma {:induction false} AtDecoded(vals: seq<Value>, name: string)
    requires AllDecoded(vals)
    ensures AllDecoded(At(vals, name))
  {
    if vals != [] {
      assert forall i :: 0 <= i < |vals| - 1 ==> vals[1..][i] == vals[i + 1];
      AtDecoded(vals[1..], name);
      assert Decoded(vals[0]);
      HeldDecoded(vals[0], name);
      DecodedConcat(Held(vals[0], name), At(vals[1..], name));
    }
  }

  /** What a struct holds under a name is among what all hold under it. */
  lemma {:induction false} HeldIsAt(vals: seq<Value>, name: string, i: nat, v: Value)
    requires i < |vals| && FieldOf(vals[i], name) == Some(v)
    ensures exists k :: 0 <= k < |At(vals, name)| && At(vals, name)[k] == v
  {
    if i == 0 {
      assert At(vals, name)[0] == v;
    } else {
      HeldIsAt(vals[1..], name, i - 1, v);
      var k :| 0 <= k < |At(vals[1..], name)| && At(vals[1..], name)[k] == v;
      assert At(vals, name)[|Held(vals[0], name)| + k] == v;
    }
  }

  lemma {:induction false} AtIsHeld(vals: seq<Value>, name: string, k: nat) returns (i: nat)
    requires k < |At(vals, name)|
    ensures i < |vals| && FieldOf(vals[i], name) == Some(At(vals, name)[k])
  {
    if k < |Held(vals[0], name)| {
      i := 0;
    } else {
      i := AtIsHeld(vals[1..], name, k - |Held(vals[0], name)|);
      i := i + 1;
    }
  }

  lemma {:induction false} FieldsConformEach(fields: seq<Field>, cols: seq<Column>)
    requires |fields| == |cols|
    ensures FieldsConform(fields, cols) <==>
            forall i :: 0 <= i < |fields| ==> Conforms(fields[i].value, cols[i].ty, cols[i].nullable)
  {
    if fields != [] {
      FieldsConformEach(fields[1..], cols[1..]);
      assert forall i :: 0 <= i < |fields| - 1 ==> fields[1..][i] == fields[i + 1] && cols[1..][i] == cols[i + 1];
      assert forall i :: 0 < i < |fields| ==> fields[i] == fields[1..][i - 1] && cols[i] == cols[1..][i - 1];
    }
  }

  lemma ConformsNullable(v: Value, ty: ColumnType, nullable: bool)
    ensures Conforms(v, ty, nullable) <==> Conforms(v, ty, true) && (v.Null? ==> nullable)
  {
  }

  // ---- The same names, counted ----

  lemma {:induction false} CountOf(s: seq<string>)
    ensures |set x | x in s| <= |s|
    ensures (forall i, j :: 0 <= i < j < |s| ==> s[i] != s[j]) ==> |set x | x in s| == |s|
  {
    if s != [] {
      var all, rest := set x | x in s, set x | x in s[1..];
      CountOf(s[1..]);
      assert all == rest + {s[0]};
      if forall i, j :: 0 <= i < j < |s| ==> s[i] != s[j] {
        forall i, j | 0 <= i < j < |s[1..]|
          ensures s[1..][i] != s[1..][j]
        {
          assert s[i + 1] != s[j + 1];
        }
        assert s[0] !in rest;
      }
    }
  }

  lemma SubsetOfSameSize(a: set<string>, b: set<string>)
    requires a <= b && |b| <= |a|
    ensures a == b
  {
    assert b == a + (b - a);
    assert |b| == |a| + |b - a|;
  }

  lemma KeysAreDistinct(fields: seq<Field>)
    requires KeysAscend(fields)
    ensures forall i, j :: 0 <= i < j < |fields| ==> Keys(fields)[i] != Keys(fields)[j]
  {
    forall i, j | 0 <= i < j < |fields|
      ensures Keys(fields)[i] != Keys(fields)[j]
    {
      AscendingIsDistinct(fields, i, j);
    }
  }

  /** As many distinct strings, all among the others: then all the others. */
  lemma {:induction false} DistinctFill(mine: seq<string>, theirs: seq<string>, x: string)
    requires forall i, j :: 0 <= i < j < |mine| ==> mine[i] != mine[j]
    requires |mine| == |theirs| && forall i :: 0 <= i < |mine| ==> mine[i] in theirs
    requires x in theirs
    ensures x in mine
  {
    CountOf(mine);
    CountOf(theirs);
    var a, b := set y | y in mine, set y | y in theirs;
    assert a <= b;
    SubsetOfSameSize(a, b);
    assert x in b;
  }

  lemma {:induction false} NamesFill(fields: seq<Field>, cols: seq<Column>, j: nat)
    requires KeysAscend(fields) && |fields| == |cols| && j < |cols|
    requires forall i :: 0 <= i < |fields| ==> ColumnIndex(cols, fields[i].name).Some?
    ensures FieldNamed(fields, cols[j].name).Some?
  {
    var mine, theirs := Keys(fields), ColumnNames(cols);
    KeysAreDistinct(fields);
    forall i | 0 <= i < |mine|
      ensures mine[i] in theirs
    {
      assert theirs[ColumnIndex(cols, fields[i].name).value] == mine[i];
    }
    assert theirs[j] in theirs;
    DistinctFill(mine, theirs, theirs[j]);
    var i :| 0 <= i < |mine| && mine[i] == theirs[j];
    FieldNamedIs(fields, i);
  }

  function KeyEntries(fields: seq<Field>): (r: seq<Entry>)
    ensures |r| == |fields| && forall i :: 0 <= i < |fields| ==> r[i] == Entry(fields[i].name, JNull)
  {
    seq(|fields|, i requires 0 <= i < |fields| => Entry(fields[i].name, JNull))
  }

  lemma KeyIsEntry(fields: seq<Field>, key: string)
    ensures Find(KeyEntries(fields), key) == if FieldNamed(fields, key).Some? then Some(JNull) else None
  {
    if FieldNamed(fields, key).Some? {
      FieldNamedAt(fields, key);
      var i :| 0 <= i < |fields| && fields[i] == Field(key, FieldNamed(fields, key).value);
      assert KeyEntries(fields)[i].key == key;
    }
  }

  /** Names in key order are determined by which there are. */
  lemma SameNamesSameKeys(x: seq<Field>, y: seq<Field>)
    requires KeysAscend(x) && KeysAscend(y)
    requires forall name :: FieldNamed(x, name).Some? <==> FieldNamed(y, name).Some?
    ensures Keys(x) == Keys(y)
  {
    forall key
      ensures Find(KeyEntries(x), key) == Find(KeyEntries(y), key)
    {
      KeyIsEntry(x, key);
      KeyIsEntry(y, key);
    }
    LookupsDecide(KeyEntries(x), KeyEntries(y));
    forall i | 0 <= i < |x|
      ensures x[i].name == y[i].name
    {
      assert KeyEntries(x)[i] == KeyEntries(y)[i];
    }
  }

  // ---- Conformance is uniformity ----

  /** A struct with the columns' names conforms exactly when each of its values conforms to its column. */
  lemma ListedConforms(fields: seq<Field>, cols: seq<Column>)
    requires Listed(cols, fields)
    ensures FieldsConform(fields, cols) <==>
            forall i :: 0 <= i < |cols| ==> Conforms(fields[i].value, cols[i].ty, cols[i].nullable)
  {
    FieldsConformEach(fields, cols);
  }

  /** Structs that all conform have the same names. */
  lemma ConformingNames(s: Schema, vals: seq<Value>, i: nat, name: string)
    requires KindAll(vals) == Record && Joins(TStruct(s), vals) && AllDecoded(vals) && Fit(vals, TStruct(s))
    requires i < |vals| && vals[i].Struct?
    ensures FieldNamed(vals[i].fields, name).Some? <==> ColumnIndex(s.columns, name).Some?
  {
    var fields := vals[i].fields;
    assert Decoded(vals[i]) && Conforms(vals[i], TStruct(s), true);
    forall k | 0 <= k < |fields|
      ensures ColumnIndex(s.columns, fields[k].name).Some?
    {
      FieldNamedIs(fields, k);
      HeldIsAt(vals, fields[k].name, i, fields[k].value);
    }
    if FieldNamed(fields, name).Some? {
      FieldNamedAt(fields, name);
    }
    if ColumnIndex(s.columns, name).Some? {
      NamesFill(fields, s.columns, ColumnIndex(s.columns, name).value);
    }
  }

  lemma ConformingKeys(s: Schema, vals: seq<Value>)
    requires KindAll(vals) == Record && Joins(TStruct(s), vals) && AllDecoded(vals) && Fit(vals, TStruct(s))
    ensures SameKeys(vals)
  {
    forall i, j | 0 <= i < |vals| && 0 <= j < |vals| && vals[i].Struct? && vals[j].Struct?
      ensures Keys(vals[i].fields) == Keys(vals[j].fields)
    {
      forall name
        ensures FieldNamed(vals[i].fields, name).Some? <==> FieldNamed(vals[j].fields, name).Some?
      {
        ConformingNames(s, vals, i, name);
        ConformingNames(s, vals, j, name);
      }
      assert Decoded(vals[i]) && Decoded(vals[j]);
      SameNamesSameKeys(vals[i].fields, vals[j].fields);
    }
  }

  /** With the same names throughout, structs conform exactly when under each name the values do. */
  lemma FitByColumn(s: Schema, vals: seq<Value>)
    requires KindAll(vals) == Record && Joins(TStruct(s), vals) && AllDecoded(vals) && SameKeys(vals)
    ensures Fit(vals, TStruct(s)) <==>
            forall k :: 0 <= k < |s.columns| ==> Fit(At(vals, s.columns[k].name), s.columns[k].ty)
  {
    if Fit(vals, TStruct(s)) {
      forall k | 0 <= k < |s.columns|
        ensures Fit(At(vals, s.columns[k].name), s.columns[k].ty)
      {
        ColumnFits(s, vals, k);
      }
    }
    if forall k :: 0 <= k < |s.columns| ==> Fit(At(vals, s.columns[k].name), s.columns[k].ty) {
      forall i | 0 <= i < |vals|
        ensures Conforms(vals[i], TStruct(s), true)
      {
        KindEach(vals, i);
        if vals[i].Struct? {
          StructFits(s, vals, i);
        }
      }
    }
  }

  lemma ColumnFits(s: Schema, vals: seq<Value>, k: nat)
    requires KindAll(vals) == Record && Joins(TStruct(s), vals) && AllDecoded(vals) && SameKeys(vals)
    requires Fit(vals, TStruct(s)) && k < |s.columns|
    ensures Fit(At(vals, s.columns[k].name), s.columns[k].ty)
  {
    var c := s.columns[k];
    forall n | 0 <= n < |At(vals, c.name)|
      ensures Conforms(At(vals, c.name)[n], c.ty, true)
    {
      var i := AtIsHeld(vals, c.name, n);
      var fields := vals[i].fields;
      assert Decoded(vals[i]) && Conforms(vals[i], TStruct(s), true) && Listed(s.columns, fields);
      ListedConforms(fields, s.columns);
      FieldNamedIs(fields, k);
      ConformsNullable(fields[k].value, c.ty, c.nullable);
    }
  }

  lemma StructFits(s: Schema, vals: seq<Value>, i: nat)
    requires KindAll(vals) == Record && Joins(TStruct(s), vals) && AllDecoded(vals) && SameKeys(vals)
    requires forall k :: 0 <= k < |s.columns| ==> Fit(At(vals, s.columns[k].name), s.columns[k].ty)
    requires i < |vals| && vals[i].Struct?
    ensures Conforms(vals[i], TStruct(s), true)
  {
    var fields := vals[i].fields;
    assert Decoded(vals[i]) && Listed(s.columns, fields);
    forall k | 0 <= k < |s.columns|
      ensures Conforms(fields[k].value, s.columns[k].ty, s.columns[k].nullable)
    {
      var c := s.columns[k];
      FieldNamedIs(fields, k);
      HeldIsAt(vals, c.name, i, fields[k].value);
      assert ColumnJoins(c, vals) && Fit(At(vals, c.name), c.ty);
      if fields[k].value.Null? {
        assert Absent(FieldOf(vals[i], c.name));
      }
      ConformsNullable(fields[k].value, c.ty, c.nullable);
    }
    ListedConforms(fields, s.columns);
  }

  /** Values conform to the type inferred from them exactly when they are uniform. */
  lemma {:induction false} FitExactlyWhenUniform(ty: ColumnType, vals: seq<Value>)
    requires Joins(ty, vals) && AllDecoded(vals)
    ensures Fit(vals, ty) <==> Uniform(vals)
    decreases ty
  {
    match KindAll(vals)
    case List =>
      forall i | 0 <= i < |vals|
        ensures vals[i].Null? || vals[i].Array?
      {
        KindEach(vals, i);
      }
      FitItems(vals, ty.elem);
      ItemsDecoded(vals);
      FitExactlyWhenUniform(ty.elem, Items(vals));
    case Record => RecordsFit(ty.schema, vals);
    case _ => ScalarsFit(ty, vals);
  }

  lemma ScalarsFit(ty: ColumnType, vals: seq<Value>)
    requires Joins(ty, vals) && KindAll(vals) != List && KindAll(vals) != Record
    ensures Fit(vals, ty) <==> Uniform(vals)
  {
    if KindAll(vals) == Mixed {
      assert ty == TJson;
    } else {
      forall i | 0 <= i < |vals|
        ensures vals[i].Null? || KindOf(vals[i]) == KindAll(vals)
      {
        KindEach(vals, i);
      }
    }
  }

  lemma {:induction false} RecordsFit(s: Schema, vals: seq<Value>)
    requires KindAll(vals) == Record && Joins(TStruct(s), vals) && AllDecoded(vals)
    ensures Fit(vals, TStruct(s)) <==> Uniform(vals)
    decreases s
  {
    if Fit(vals, TStruct(s)) {
      ConformingKeys(s, vals);
    }
    if SameKeys(vals) {
      FitByColumn(s, vals);
      ColumnsUniform(s, vals);
    }
  }

  lemma {:induction false} ColumnsUniform(s: Schema, vals: seq<Value>)
    requires KindAll(vals) == Record && Joins(TStruct(s), vals) && AllDecoded(vals)
    ensures (forall k :: 0 <= k < |s.columns| ==> Fit(At(vals, s.columns[k].name), s.columns[k].ty)) <==>
            forall name :: Uniform(At(vals, name))
    decreases s, 0
  {
    forall k | 0 <= k < |s.columns|
      ensures Fit(At(vals, s.columns[k].name), s.columns[k].ty) <==> Uniform(At(vals, s.columns[k].name))
    {
      assert ColumnJoins(s.columns[k], vals);
      AtDecoded(vals, s.columns[k].name);
      FitExactlyWhenUniform(s.columns[k].ty, At(vals, s.columns[k].name));
    }
    if forall k :: 0 <= k < |s.columns| ==> Fit(At(vals, s.columns[k].name), s.columns[k].ty) {
      forall name
        ensures Uniform(At(vals, name))
      {
        var at := ColumnIndex(s.columns, name);
        if at.Some? {
          assert Uniform(At(vals, s.columns[at.value].name));
        } else {
          assert At(vals, name) == [];
        }
      }
    }
  }

  // ---- Batches ----

  /** A node as the row it becomes: its entries, or one field called `value`. */
  function Fields(node: Json): seq<Field> {
    if node.JObj? then EntriesToFields(node.entries) else [Field("value", JsonToValue(node))]
  }

  function Records(nodes: seq<Json>): (r: seq<Value>)
    ensures |r| == |nodes| && forall i :: 0 <= i < |nodes| ==> r[i] == Struct(Fields(nodes[i]))
  {
    seq(|nodes|, i requires 0 <= i < |nodes| => Struct(Fields(nodes[i])))
  }

  lemma {:induction false} JsonDecodes(j: Json)
    requires Parsed(j)
    ensures Decoded(JsonToValue(j))
    decreases j, 0
  {
    match j
    case JArr(items) => ItemsDecode(items);
    case JObj(entries) => EntriesDecode(entries);
    case _ =>
  }

  lemma {:induction false} ItemsDecode(items: seq<Json>)
    requires AllParsed(items)
    ensures AllDecoded(ItemsToValues(items))
    decreases items, 1
  {
    if items != [] {
      JsonDecodes(items[0]);
      ItemsDecode(items[1..]);
      DecodedConcat([JsonToValue(items[0])], ItemsToValues(items[1..]));
    }
  }

  lemma {:induction false} EntriesDecode(entries: seq<Entry>)
    requires EntriesParsed(entries) && Ascending(entries)
    ensures KeysAscend(EntriesToFields(entries)) && FieldsDecoded(EntriesToFields(entries))
    decreases entries, 1
  {
    EachDecodes(entries);
    forall i, j | 0 <= i < j < |entries|
      ensures Text.Before(EntriesToFields(entries)[i].name, EntriesToFields(entries)[j].name)
    {
      FieldAt(entries, i);
      FieldAt(entries, j);
    }
  }

  lemma {:induction false} EachDecodes(entries: seq<Entry>)
    requires EntriesParsed(entries)
    ensures FieldsDecoded(EntriesToFields(entries))
    decreases entries, 0
  {
    if entries != [] {
      JsonDecodes(entries[0].value);
      EachDecodes(entries[1..]);
      var all, rest := EntriesToFields(entries), EntriesToFields(entries[1..]);
      assert forall i :: 0 < i < |all| ==> all[i] == rest[i - 1];
    }
  }

  /** A node's inferred schema is its record's type, and the record is decoded. */
  lemma NodeJoins(node: Json)
    requires Parsed(node)
    ensures Decoded(Struct(Fields(node))) && Joins(TStruct(JsonToStruct(node).1), [Struct(Fields(node))])
  {
    if node.JObj? {
      EntriesDecode(node.entries);
    } else {
      JsonDecodes(node);
    }
    TypeJoins(Struct(Fields(node)));
  }

  lemma {:induction false} UnionJoins(nodes: seq<Json>, acc: Option<Schema>, seen: seq<Value>)
    requires forall i :: 0 <= i < |nodes| ==> Parsed(nodes[i])
    requires if acc.Some? then Joins(TStruct(acc.value), seen) else seen == []
    requires acc.Some? || nodes != []
    ensures UnionOf(nodes, acc).Some? && Joins(TStruct(UnionOf(nodes, acc).value), seen + Records(nodes))
    decreases nodes
  {
    if nodes == [] {
      assert seen + Records(nodes) == seen;
    } else {
      var next := seen + [Struct(Fields(nodes[0]))];
      MergeJoins(nodes[0], acc, seen);
      UnionJoins(nodes[1..], Merge(acc, JsonToStruct(nodes[0]).1), next);
      RecordsBehind(nodes, seen);
    }
  }

  lemma MergeJoins(node: Json, acc: Option<Schema>, seen: seq<Value>)
    requires Parsed(node) && if acc.Some? then Joins(TStruct(acc.value), seen) else seen == []
    ensures Joins(TStruct(Merge(acc, JsonToStruct(node).1).value), seen + [Struct(Fields(node))])
  {
    NodeJoins(node);
    if acc.Some? {
      WidenJoins(TStruct(acc.value), seen, TStruct(JsonToStruct(node).1), [Struct(Fields(node))]);
    } else {
      assert seen + [Struct(Fields(node))] == [Struct(Fields(node))];
    }
  }

  lemma RecordsBehind(nodes: seq<Json>, seen: seq<Value>)
    requires nodes != []
    ensures seen + Records(nodes) == seen + [Struct(Fields(nodes[0]))] + Records(nodes[1..])
  {
    assert Records(nodes) == [Struct(Fields(nodes[0]))] + Records(nodes[1..]);
  }

  lemma RecordsAreRecords(nodes: seq<Json>)
    requires nodes != [] && forall i :: 0 <= i < |nodes| ==> Parsed(nodes[i])
    ensures KindAll(Records(nodes)) == Record && AllDecoded(Records(nodes))
  {
    AllStructs(Records(nodes));
    forall i | 0 <= i < |nodes|
      ensures Decoded(Records(nodes)[i])
    {
      NodeJoins(nodes[i]);
    }
  }

  lemma {:induction false} AllStructs(vals: seq<Value>)
    requires vals != [] && forall i :: 0 <= i < |vals| ==> vals[i].Struct?
    ensures KindAll(vals) == Record
  {
    if |vals| > 1 {
      AllStructs(vals[1..]);
    } else {
      assert vals[1..] == [];
    }
  }

  /** A node's cell under a name is what its record holds there, or null. */
  lemma CellIsHeld(node: Json, name: string)
    ensures var (row, schema) := JsonToStruct(node);
            CellNamed(row, schema, name) == match FieldNamed(Fields(node), name) case Some(v) => v case None => Null
  {
    var fields := Fields(node);
    var cols := FieldColumns(fields);
    forall i | 0 <= i < |cols|
      ensures cols[i].name == fields[i].name
    {
      ColumnOfField(fields, i);
    }
    NamedIsAt(fields, cols, name);
  }

  lemma {:induction false} NamedIsAt(fields: seq<Field>, cols: seq<Column>, name: string)
    requires Listed(cols, fields)
    ensures FieldNamed(fields, name) ==
            match ColumnIndex(cols, name) case Some(k) => Some(fields[k].value) case None => None
  {
    if fields != [] && fields[0].name != name {
      assert forall i :: 0 <= i < |cols| - 1 ==> cols[1..][i].name == fields[1..][i].name;
      NamedIsAt(fields[1..], cols[1..], name);
    }
  }

  predicate AllCellsConform(nodes: seq<Json>, c: Column) {
    forall i :: 0 <= i < |nodes| ==> CellConforms(nodes[i], c)
  }

  /** What the nodes hold under the name is uniform. */
  ghost predicate UniformUnder(nodes: seq<Json>, name: string) {
    Uniform(At(Records(nodes), name))
  }

  /** A column of the union conforms throughout exactly when what the nodes hold under its name is uniform. */
  lemma ColumnConforms(nodes: seq<Json>, c: Column)
    requires nodes != [] && forall i :: 0 <= i < |nodes| ==> Parsed(nodes[i])
    requires ColumnJoins(c, Records(nodes))
    ensures AllCellsConform(nodes, c) <==> UniformUnder(nodes, c.name)
  {
    var held := At(Records(nodes), c.name);
    RecordsAreRecords(nodes);
    AtDecoded(Records(nodes), c.name);
    FitExactlyWhenUniform(c.ty, held);
    if Fit(held, c.ty) {
      forall i | 0 <= i < |nodes|
        ensures CellConforms(nodes[i], c)
      {
        HeldCellConforms(nodes, c, i);
      }
    }
    if forall i :: 0 <= i < |nodes| ==> CellConforms(nodes[i], c) {
      forall n | 0 <= n < |held|
        ensures Conforms(held[n], c.ty, true)
      {
        var i := AtIsHeld(Records(nodes), c.name, n);
        assert CellConforms(nodes[i], c);
        CellIsHeld(nodes[i], c.name);
        ConformsNullable(held[n], c.ty, c.nullable);
      }
    }
  }

  predicate CellConforms(node: Json, c: Column) {
    var (row, schema) := JsonToStruct(node);
    Conforms(CellNamed(row, schema, c.name), c.ty, c.nullable)
  }

  lemma HeldCellConforms(nodes: seq<Json>, c: Column, i: nat)
    requires ColumnJoins(c, Records(nodes)) && Fit(At(Records(nodes), c.name), c.ty) && i < |nodes|
    ensures CellConforms(nodes[i], c)
  {
    var v := FieldOf(Records(nodes)[i], c.name);
    CellIsHeld(nodes[i], c.name);
    if v.Some? {
      HeldIsAt(Records(nodes), c.name, i, v.value);
      ConformsNullable(v.value, c.ty, c.nullable);
    }
    if Absent(v) {
      assert Lacking(Records(nodes), c.name);
    }
  }

  /**
   A batch conforms to its inferred schema exactly when, under every name, what the nodes hold is uniform:
   of several kinds, or of one and then no integer among floats, with uniform elements and uniform fields.
   */
  lemma BatchConformsExactlyWhen(nodes: seq<Json>)
    requires forall i :: 0 <= i < |nodes| ==> Parsed(nodes[i])
    ensures BatchConforms(RowsToBatch(nodes)) <==> forall name :: UniformUnder(nodes, name)
  {
    if nodes == [] {
      assert forall name :: At(Records(nodes), name) == [];
    } else {
      BatchJoins(nodes);
      ByCell(nodes);
      ColumnsDecide(nodes, RowsToBatch(nodes).schema);
    }
  }

  lemma BatchJoins(nodes: seq<Json>)
    requires nodes != [] && forall i :: 0 <= i < |nodes| ==> Parsed(nodes[i])
    ensures Joins(TStruct(RowsToBatch(nodes).schema), Records(nodes)) && KindAll(Records(nodes)) == Record
  {
    UnionJoins(nodes, None, []);
    RecordsAreRecords(nodes);
    assert [] + Records(nodes) == Records(nodes);
  }

  lemma ColumnsDecide(nodes: seq<Json>, s: Schema)
    requires nodes != [] && forall i :: 0 <= i < |nodes| ==> Parsed(nodes[i])
    requires KindAll(Records(nodes)) == Record && Joins(TStruct(s), Records(nodes))
    ensures (forall k :: 0 <= k < |s.columns| ==> AllCellsConform(nodes, s.columns[k])) <==> forall name :: UniformUnder(nodes, name)
  {
    forall k | 0 <= k < |s.columns|
      ensures AllCellsConform(nodes, s.columns[k]) <==> UniformUnder(nodes, s.columns[k].name)
    {
      ColumnDecides(nodes, s, k);
    }
    if forall k :: 0 <= k < |s.columns| ==> AllCellsConform(nodes, s.columns[k]) {
      forall name
        ensures UniformUnder(nodes, name)
      {
        OnlyColumnsHold(nodes, s.columns, name);
      }
    }
  }

  lemma ColumnDecides(nodes: seq<Json>, s: Schema, k: nat)
    requires nodes != [] && forall i :: 0 <= i < |nodes| ==> Parsed(nodes[i])
    requires KindAll(Records(nodes)) == Record && Joins(TStruct(s), Records(nodes)) && k < |s.columns|
    ensures AllCellsConform(nodes, s.columns[k]) <==> UniformUnder(nodes, s.columns[k].name)
  {
    assert ColumnJoins(s.columns[k], Records(nodes));
    ColumnConforms(nodes, s.columns[k]);
  }

  lemma OnlyColumnsHold(nodes: seq<Json>, cols: seq<Column>, name: string)
    requires ColumnIndex(cols, name).Some? <==> At(Records(nodes), name) != []
    requires forall k :: 0 <= k < |cols| ==> UniformUnder(nodes, cols[k].name)
    ensures UniformUnder(nodes, name)
  {
    if ColumnIndex(cols, name).Some? {
      assert UniformUnder(nodes, cols[ColumnIndex(cols, name).value].name);
    } else {
      assert At(Records(nodes), name) == [];
    }
  }

  lemma ByCell(nodes: seq<Json>)
    ensures BatchConforms(RowsToBatch(nodes)) <==>
            forall k :: 0 <= k < |RowsToBatch(nodes).schema.columns| ==> AllCellsConform(nodes, RowsToBatch(nodes).schema.columns[k])
  {
    var b := RowsToBatch(nodes);
    forall i | 0 <= i < |nodes|
      ensures RowConforms(b.rows[i], b.schema) <==>
              forall k :: 0 <= k < |b.schema.columns| ==> CellConforms(nodes[i], b.schema.columns[k])
    {
      RowByCell(nodes[i], b.schema);
    }
    if forall k :: 0 <= k < |b.schema.columns| ==> AllCellsConform(nodes, b.schema.columns[k]) {
      forall i, k | 0 <= i < |nodes| && 0 <= k < |b.schema.columns|
        ensures CellConforms(nodes[i], b.schema.columns[k])
      {
        assert AllCellsConform(nodes, b.schema.columns[k]);
      }
    }
  }

  lemma RowByCell(node: Json, s: Schema)
    ensures var (row, schema) := JsonToStruct(node);
            RowConforms(AlignRow(row, schema, s), s) <==> forall k :: 0 <= k < |s.columns| ==> CellConforms(node, s.columns[k])
  {
    var (row, schema) := JsonToStruct(node);
    var r := AlignRow(row, schema, s);
    assert forall k :: 0 <= k < |s.columns| ==>
      (CellConforms(node, s.columns[k]) <==> Conforms(r.values[k], s.columns[k].ty, s.columns[k].nullable));
  }

  // ---- Three ways not to conform ----

  lemma OneEntry(key: string, j: Json)
    ensures Fields(JObj([Entry(key, j)])) == [Field(key, JsonToValue(j))]
    ensures Parsed(j) ==> Parsed(JObj([Entry(key, j)]))
  {
    var entries := [Entry(key, j)];
    assert entries[0] == Entry(key, j) && entries[1..] == [];
    assert EntriesToFields(entries) == [Field(key, JsonToValue(j))] + EntriesToFields([]);
  }

  lemma TwoUnder(key: string, x: Json, y: Json)
    ensures At(Records([JObj([Entry(key, x)]), JObj([Entry(key, y)])]), key) == [JsonToValue(x), JsonToValue(y)]
  {
    var v, w := Struct([Field(key, JsonToValue(x))]), Struct([Field(key, JsonToValue(y))]);
    OneEntry(key, x);
    OneEntry(key, y);
    assert Records([JObj([Entry(key, x)]), JObj([Entry(key, y)])]) == [v] + [w];
    OneUnder(key, JsonToValue(x));
    OneUnder(key, JsonToValue(y));
    AtConcat([v], [w], key);
  }

  lemma OneUnder(key: string, v: Value)
    ensures At([Struct([Field(key, v)])], key) == [v]
  {
    OneSeen(Struct([Field(key, v)]));
  }

  /** Two rows that disagree under a name they both have. */
  lemma PairFails(key: string, x: Json, y: Json)
    requires Parsed(x) && Parsed(y) && !Uniform([JsonToValue(x), JsonToValue(y)])
    ensures !BatchConforms(RowsToBatch([JObj([Entry(key, x)]), JObj([Entry(key, y)])]))
  {
    var nodes := [JObj([Entry(key, x)]), JObj([Entry(key, y)])];
    OneEntry(key, x);
    OneEntry(key, y);
    TwoUnder(key, x, y);
    BatchConformsExactlyWhen(nodes);
    assert !UniformUnder(nodes, key);
  }

  lemma NumbersDiffer(n: I64, x: real)
    ensures !Uniform([Int(n), Float(x)])
  {
    var vals := [Int(n), Float(x)];
    assert vals[0].Int? && vals[1].Float?;
    OneSeen(Int(n));
    OneSeen(Float(x));
    KindConcat([Int(n)], [Float(x)]);
    assert vals == [Int(n)] + [Float(x)];
  }

  /** An integer in one row and a float in another, under any name. */
  lemma IntegerAmongFloats(key: string, n: I64, x: real)
    ensures !BatchConforms(RowsToBatch([JObj([Entry(key, JNum(Whole(n)))]), JObj([Entry(key, JNum(Fraction(x)))])]))
  {
    NumbersDiffer(n, x);
    PairFails(key, JNum(Whole(n)), JNum(Fraction(x)));
  }

  lemma TwoNumbers(n: I64, x: real)
    ensures ItemsToValues([JNum(Whole(n)), JNum(Fraction(x))]) == [Int(n), Float(x)]
    ensures Parsed(JArr([JNum(Whole(n)), JNum(Fraction(x))]))
  {
    var items := [JNum(Whole(n)), JNum(Fraction(x))];
    var rest := items[1..];
    assert rest == [JNum(Fraction(x))] && rest[1..] == [];
    assert ItemsToValues(rest) == [Float(x)] + ItemsToValues([]);
    assert ItemsToValues(items) == [Int(n)] + ItemsToValues(rest);
    assert AllParsed(rest[1..]) && Parsed(rest[0]);
    assert AllParsed(rest) && Parsed(items[0]);
  }

  /** An integer and a float in one row's array. */
  lemma ArrayAmongFloats(key: string, n: I64, x: real)
    ensures !BatchConforms(RowsToBatch([JObj([Entry(key, JArr([JNum(Whole(n)), JNum(Fraction(x))]))])]))
  {
    var items := [JNum(Whole(n)), JNum(Fraction(x))];
    var node := JObj([Entry(key, JArr(items))]);
    var vals := [Array([Int(n), Float(x)])];
    TwoNumbers(n, x);
    OneEntry(key, JArr(items));
    NumbersDiffer(n, x);
    OneSeen(vals[0]);
    assert !Uniform(vals);
    var r := Records([node]);
    assert r == [Struct([Field(key, vals[0])])];
    OneSeen(r[0]);
    BatchConformsExactlyWhen([node]);
    assert !UniformUnder([node], key);
  }

  /** Structs with different names. */
  lemma RaggedStructs(key: string, a: string, b: string, x: Json, y: Json)
    requires a != b && Parsed(x) && Parsed(y)
    ensures !BatchConforms(RowsToBatch([JObj([Entry(key, JObj([Entry(a, x)]))]), JObj([Entry(key, JObj([Entry(b, y)]))])]))
  {
    OneEntry(a, x);
    OneEntry(b, y);
    StructsDiffer(Field(a, JsonToValue(x)), Field(b, JsonToValue(y)));
    PairFails(key, JObj([Entry(a, x)]), JObj([Entry(b, y)]));
  }

  lemma StructsDiffer(x: Field, y: Field)
    requires x.name != y.name
    ensures !Uniform([Struct([x]), Struct([y])])
  {
    var vals := [Struct([x]), Struct([y])];
    AllStructs(vals);
    assert Keys([x])[0] != Keys([y])[0];
    assert !SameKeys(vals) by {
      assert vals[0].Struct? && vals[1].Struct? && Keys(vals[0].fields) != Keys(vals[1].fields);
    }
  }

  // ---- The order of the rows does not matter ----

  lemma {:induction false} TypeIsWellNamed(v: Value)
    requires Decoded(v)
    ensures WellNamed(TypeOf(v))
    decreases v, 0
  {
    match v
    case Array(items) => FoldIsWellNamed(items, TUnknown);
    case Struct(fields) =>
      var cols := FieldColumns(fields);
      forall i | 0 <= i < |cols|
        ensures cols[i].name == fields[i].name && WellNamed(cols[i].ty)
      {
        ColumnOfField(fields, i);
        TypeIsWellNamed(fields[i].value);
      }
      forall i, j | 0 <= i < j < |cols|
        ensures cols[i].name != cols[j].name
      {
        AscendingIsDistinct(fields, i, j);
      }
    case _ =>
  }

  lemma {:induction false} FoldIsWellNamed(items: seq<Value>, acc: ColumnType)
    requires AllDecoded(items) && WellNamed(acc)
    ensures WellNamed(WidenAll(items, acc))
    decreases items, 1
  {
    if items != [] {
      TypeIsWellNamed(items[0]);
      WidenIsWellNamed(acc, TypeOf(items[0]));
      assert forall i :: 0 <= i < |items| - 1 ==> items[1..][i] == items[i + 1];
      FoldIsWellNamed(items[1..], Widen(acc, TypeOf(items[0])));
    }
  }

  function NodeType(node: Json): ColumnType {
    TStruct(JsonToStruct(node).1)
  }

  lemma NodeIsWellNamed(node: Json)
    requires Parsed(node)
    ensures WellNamed(NodeType(node))
  {
    NodeJoins(node);
    TypeIsWellNamed(Struct(Fields(node)));
  }

  /** The union is above every schema it was made from … */
  lemma {:induction false} UnionIsAbove(nodes: seq<Json>, acc: Option<Schema>, below: ColumnType)
    requires forall i :: 0 <= i < |nodes| ==> Parsed(nodes[i])
    requires acc.Some? ==> WellNamed(TStruct(acc.value))
    requires (acc.Some? && Below(below, TStruct(acc.value))) || exists i :: 0 <= i < |nodes| && NodeType(nodes[i]) == below
    ensures UnionOf(nodes, acc).Some? && Below(below, TStruct(UnionOf(nodes, acc).value))
    decreases nodes
  {
    if nodes != [] {
      var next := Merge(acc, JsonToStruct(nodes[0]).1);
      MergeIsAbove(nodes[0], acc);
      if acc.Some? && Below(below, TStruct(acc.value)) {
        BelowTransitive(below, TStruct(acc.value), TStruct(next.value));
      } else if NodeType(nodes[0]) != below {
        var i :| 0 <= i < |nodes| && NodeType(nodes[i]) == below;
        assert NodeType(nodes[1..][i - 1]) == below;
      }
      UnionIsAbove(nodes[1..], next, below);
    }
  }

  lemma MergeIsAbove(node: Json, acc: Option<Schema>)
    requires Parsed(node) && (acc.Some? ==> WellNamed(TStruct(acc.value)))
    ensures var next := TStruct(Merge(acc, JsonToStruct(node).1).value);
            WellNamed(next) && Below(NodeType(node), next) && (acc.Some? ==> Below(TStruct(acc.value), next))
  {
    NodeIsWellNamed(node);
    if acc.Some? {
      WidenIsAbove(TStruct(acc.value), NodeType(node));
      WidenIsWellNamed(TStruct(acc.value), NodeType(node));
    } else {
      BelowReflexive(NodeType(node));
    }
  }

  /** … and below every type all of them are below. */
  lemma {:induction false} UnionIsLeast(nodes: seq<Json>, acc: Option<Schema>, above: ColumnType)
    requires forall i :: 0 <= i < |nodes| ==> Below(NodeType(nodes[i]), above)
    requires acc.Some? ==> Below(TStruct(acc.value), above)
    ensures UnionOf(nodes, acc).Some? ==> Below(TStruct(UnionOf(nodes, acc).value), above)
    decreases nodes
  {
    if nodes != [] {
      assert Below(NodeType(nodes[0]), above);
      if acc.Some? {
        WidenIsLeast(TStruct(acc.value), NodeType(nodes[0]), above);
      }
      UnionIsLeast(nodes[1..], Merge(acc, JsonToStruct(nodes[0]).1), above);
    }
  }

  /** Batches of the same nodes, in whatever order and however often, have one schema up to the order of columns. */
  lemma InferenceIgnoresOrder(x: seq<Json>, y: seq<Json>)
    requires forall i :: 0 <= i < |x| ==> Parsed(x[i])
    requires forall j :: j in x <==> j in y
    ensures Alike(TStruct(RowsToBatch(x).schema), TStruct(RowsToBatch(y).schema))
  {
    forall i | 0 <= i < |y|
      ensures Parsed(y[i])
    {
      assert y[i] in y;
    }
    SchemaIsBelow(x, y);
    SchemaIsBelow(y, x);
  }

  lemma FirstIsIn<T>(s: seq<T>)
    ensures s != [] ==> s[0] in s
  {
  }

  lemma SchemaIsBelow(x: seq<Json>, y: seq<Json>)
    requires forall i :: 0 <= i < |y| ==> Parsed(y[i])
    requires forall j :: j in x <==> j in y
    ensures Below(TStruct(RowsToBatch(x).schema), TStruct(RowsToBatch(y).schema))
  {
    if x == [] {
      FirstIsIn(y);
    } else {
      assert x[0] in x;
      forall i | 0 <= i < |x|
        ensures Below(NodeType(x[i]), TStruct(RowsToBatch(y).schema))
      {
        assert x[i] in x;
        var k :| 0 <= k < |y| && y[k] == x[i];
        UnionIsAbove(y, None, NodeType(y[k]));
      }
      UnionIsSome(x, None);
      UnionIsLeast(x, None, TStruct(RowsToBatch(y).schema));
    }
  }
}
