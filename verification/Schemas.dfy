/** The schema algebra: widening, column-wise unification and expansion of a collection column. */
module Schemas {
  import opened Wrappers
  import opened Types
  import opened Errors

  /** The least upper bound of two column types; irreconcilable types degrade to JSON. */
  function Widen(a: ColumnType, b: ColumnType): ColumnType
    decreases a, 1
  {
    if a.TUnknown? then b
    else if b.TUnknown? then a
    else if (a.TInt? && b.TFloat?) || (a.TFloat? && b.TInt?) then TFloat
    else if a.TStruct? && b.TStruct? then TStruct(Schema(UnifyColumns(a.schema.columns, b.schema.columns) + OnlyIn(b.schema.columns, a.schema.columns)))
    else if a.TArray? && b.TArray? then TArray(Widen(a.elem, b.elem))
    else if a == b then a
    else TJson
  }

  function MergeProvenance(a: Provenance, b: Provenance): Provenance {
    Provenance(if a.driver == b.driver then a.driver else None, if a.sourceCol == b.sourceCol then a.sourceCol else None)
  }

  /** A column widened against its namesake, or made nullable when there is none. */
  function Against(c: Column, others: seq<Column>): (r: Column)
    ensures r.name == c.name
    decreases c, 0
  {
    match FindColumn(Schema(others), c.name)
    case Some(o) => Column(c.name, Widen(c.ty, o.ty), c.nullable || o.nullable, MergeProvenance(c.provenance, o.provenance))
    case None => c.(nullable := true)
  }

  /** Every column of `a`, widened against its namesake in `b`, or made nullable when `b` lacks it. */
  function UnifyColumns(a: seq<Column>, b: seq<Column>): (r: seq<Column>)
    ensures |r| == |a|
    ensures forall i :: 0 <= i < |a| ==> r[i].name == a[i].name
    decreases a, 0
  {
    if a == [] then [] else [Against(a[0], b)] + UnifyColumns(a[1..], b)
  }

  /** The columns of `b` whose names `a` lacks, in order, made nullable. */
  function OnlyIn(b: seq<Column>, a: seq<Column>): (r: seq<Column>)
    ensures forall c :: c in r ==> c.nullable && ColumnIndex(a, c.name).None?
    ensures forall name :: ColumnIndex(r, name).Some? <==> ColumnIndex(b, name).Some? && ColumnIndex(a, name).None?
  {
    if b == [] then []
    else
      var rest := OnlyIn(b[1..], a);
      if ColumnIndex(a, b[0].name).Some? then rest else [b[0].(nullable := true)] + rest
  }

  function Unify(a: Schema, b: Schema): Schema {
    Schema(UnifyColumns(a.columns, b.columns) + OnlyIn(b.columns, a.columns))
  }

  /** The columns a collection column is replaced by, if its type is a collection. */
  function Replacement(c: Column): Option<seq<Column>> {
    match c.ty
    case TArray(TStruct(inner)) => Some(inner.columns)
    case TArray(elem) => Some([Column(c.name, elem, false, c.provenance)])
    case TStruct(inner) => Some(inner.columns)
    case _ => None
  }

  function ExpandSchema(schema: Schema, field: string): Result<Schema, TypeError> {
    match ColumnIndex(schema.columns, field)
    case None => Err(UnknownColumn(field))
    case Some(i) =>
      match Replacement(schema.columns[i])
      case None => Err(NotExpandable(field, schema.columns[i].ty))
      case Some(cols) => Ok(Schema(schema.columns[..i] + cols + schema.columns[i + 1..]))
  }

  // ---- Unification has the names of both sides ----

  lemma {:induction false} IndexOfConcat(a: seq<Column>, b: seq<Column>, name: string)
    ensures ColumnIndex(a + b, name).Some? <==> ColumnIndex(a, name).Some? || ColumnIndex(b, name).Some?
  {
    var ab := a + b;
    if ColumnIndex(a, name).Some? {
      assert ab[ColumnIndex(a, name).value].name == name;
    }
    if ColumnIndex(b, name).Some? {
      assert ab[|a| + ColumnIndex(b, name).value].name == name;
    }
    if ColumnIndex(ab, name).Some? {
      var i := ColumnIndex(ab, name).value;
      if i < |a| {
        assert a[i].name == name;
      } else {
        assert b[i - |a|].name == name;
      }
    }
  }

  /** A name is in the unified schema exactly when it is in either side. */
  lemma UnifyNames(a: Schema, b: Schema, name: string)
    ensures ColumnIndex(Unify(a, b).columns, name).Some? <==>
            ColumnIndex(a.columns, name).Some? || ColumnIndex(b.columns, name).Some?
  {
    var left := UnifyColumns(a.columns, b.columns);
    IndexOfConcat(left, OnlyIn(b.columns, a.columns), name);
    if ColumnIndex(left, name).Some? {
      assert a.columns[ColumnIndex(left, name).value].name == name;
    }
    if ColumnIndex(a.columns, name).Some? {
      assert left[ColumnIndex(a.columns, name).value].name == name;
    }
  }

  /** No name occurs twice. */
  predicate DistinctNames(cols: seq<Column>) {
    forall i, j :: 0 <= i < j < |cols| ==> cols[i].name != cols[j].name
  }

  lemma {:induction false} OnlyInIsDistinct(b: seq<Column>, a: seq<Column>)
    requires DistinctNames(b)
    ensures DistinctNames(OnlyIn(b, a))
  {
    if b != [] {
      OnlyInIsDistinct(b[1..], a);
      var rest := OnlyIn(b[1..], a);
      forall i | 0 <= i < |rest|
        ensures rest[i].name != b[0].name
      {
        assert ColumnIndex(rest, rest[i].name).Some?;
      }
    }
  }

  lemma UnifyIsDistinct(a: Schema, b: Schema)
    requires DistinctNames(a.columns) && DistinctNames(b.columns)
    ensures DistinctNames(Unify(a, b).columns)
  {
    OnlyInIsDistinct(b.columns, a.columns);
    var left, right := UnifyColumns(a.columns, b.columns), OnlyIn(b.columns, a.columns);
    forall i, j | 0 <= i < |left| && 0 <= j < |right|
      ensures left[i].name != right[j].name
    {
      assert right[j] in right && a.columns[i].name == left[i].name;
    }
  }
}
