/** Widening as an order: one type sits below another, and widening two types gives their least upper bound. */
module Widening {
  import opened Wrappers
  import opened Types
  import opened Schemas

  /** What is known of a column's origin is the same, or known no more. */
  predicate OriginBelow(a: Provenance, b: Provenance) {
    (b.driver == a.driver || b.driver.None?) && (b.sourceCol == a.sourceCol || b.sourceCol.None?)
  }

  /**
   One type sits below another: unknown below all, all below JSON, integers below floats, arrays by element,
   and a struct below one that has all its columns, each above its own, and whose further columns are nullable.
   */
  predicate Below(a: ColumnType, b: ColumnType)
    decreases b
  {
    if a.TUnknown? || b.TJson? then true
    else if a.TArray? && b.TArray? then Below(a.elem, b.elem)
    else if a.TStruct? && b.TStruct? then
      && (forall i :: 0 <= i < |a.schema.columns| ==> ColumnIndex(b.schema.columns, a.schema.columns[i].name).Some?)
      && (forall i :: 0 <= i < |b.schema.columns| ==> ColumnBelow(FindColumn(a.schema, b.schema.columns[i].name), b.schema.columns[i]))
    else a == b || (a.TInt? && b.TFloat?)
  }

  predicate ColumnBelow(a: Option<Column>, b: Column)
    decreases b
  {
    match a
    case Some(c) => Below(c.ty, b.ty) && (c.nullable ==> b.nullable) && OriginBelow(c.provenance, b.provenance)
    case None => b.nullable
  }

  /** No struct in the type repeats a name. */
  predicate WellNamed(ty: ColumnType)
    decreases ty, 1
  {
    match ty
    case TStruct(s) => DistinctNames(s.columns) && AllWellNamed(s.columns)
    case TArray(e) => WellNamed(e)
    case _ => true
  }

  predicate AllWellNamed(cols: seq<Column>)
    decreases cols, 0
  {
    forall i :: 0 <= i < |cols| ==> WellNamed(cols[i].ty)
  }

  // ---- Looking a name up in a unified schema ----

  lemma {:induction false} UnifyAt(a: seq<Column>, b: seq<Column>, i: nat)
    requires i < |a|
    ensures UnifyColumns(a, b)[i] == Against(a[i], b)
  {
    if i > 0 {
      UnifyAt(a[1..], b, i - 1);
    }
  }

  lemma FindCons(first: Column, rest: seq<Column>, name: string)
    ensures FindColumn(Schema([first] + rest), name) == if first.name == name then Some(first) else FindColumn(Schema(rest), name)
  {
    assert ([first] + rest)[1..] == rest;
  }

  function MadeNullable(c: Option<Column>): Option<Column> {
    match c
    case Some(found) => Some(found.(nullable := true))
    case None => None
  }

  lemma {:induction false} OnlyInFirst(b: seq<Column>, a: seq<Column>, name: string)
    requires ColumnIndex(a, name).None?
    ensures FindColumn(Schema(OnlyIn(b, a)), name) == MadeNullable(FindColumn(Schema(b), name))
  {
    if b != [] {
      var rest := OnlyIn(b[1..], a);
      OnlyInFirst(b[1..], a, name);
      assert b == [b[0]] + b[1..];
      FindCons(b[0], b[1..], name);
      FindCons(b[0].(nullable := true), rest, name);
    }
  }

  lemma FirstOfConcat(a: seq<Column>, b: seq<Column>, name: string)
    ensures ColumnIndex(a + b, name) ==
            if ColumnIndex(a, name).Some? then ColumnIndex(a, name)
            else match ColumnIndex(b, name) case Some(i) => Some(|a| + i) case None => None
  {
    if a == [] {
      assert a + b == b;
    } else {
      assert (a + b)[0] == a[0] && (a + b)[1..] == a[1..] + b;
    }
  }

  lemma {:induction false} IndexInUnified(a: seq<Column>, b: seq<Column>, name: string)
    ensures ColumnIndex(UnifyColumns(a, b), name) == ColumnIndex(a, name)
  {
    if a != [] {
      IndexInUnified(a[1..], b, name);
      assert UnifyColumns(a, b)[1..] == UnifyColumns(a[1..], b);
    }
  }

  /** A unified schema holds each name's first column of either side, widened against the other's. */
  lemma UnifyLookup(a: Schema, b: Schema, name: string)
    ensures FindColumn(Unify(a, b), name) ==
            match FindColumn(a, name)
            case Some(c) => Some(Against(c, b.columns))
            case None => MadeNullable(FindColumn(b, name))
  {
    var left, right := UnifyColumns(a.columns, b.columns), OnlyIn(b.columns, a.columns);
    IndexInUnified(a.columns, b.columns, name);
    FindInConcat(left, right, name);
    if FindColumn(a, name).Some? {
      UnifyAt(a.columns, b.columns, ColumnIndex(a.columns, name).value);
    } else {
      OnlyInFirst(b.columns, a.columns, name);
    }
  }

  lemma FindInConcat(a: seq<Column>, b: seq<Column>, name: string)
    ensures FindColumn(Schema(a + b), name) ==
            if ColumnIndex(a, name).Some? then Some(a[ColumnIndex(a, name).value]) else FindColumn(Schema(b), name)
  {
    FirstOfConcat(a, b, name);
    if ColumnIndex(a, name).Some? {
      assert (a + b)[ColumnIndex(a, name).value] == a[ColumnIndex(a, name).value];
    } else if ColumnIndex(b, name).Some? {
      assert (a + b)[|a| + ColumnIndex(b, name).value] == b[ColumnIndex(b, name).value];
    }
  }

  lemma FindOwn(s: Schema, i: nat)
    requires DistinctNames(s.columns) && i < |s.columns|
    ensures FindColumn(s, s.columns[i].name) == Some(s.columns[i])
  {
  }

  // ---- The order ----

  lemma {:induction false} BelowReflexive(ty: ColumnType)
    requires WellNamed(ty)
    ensures Below(ty, ty)
    decreases ty
  {
    match ty
    case TArray(e) => BelowReflexive(e);
    case TStruct(s) =>
      forall i | 0 <= i < |s.columns|
        ensures ColumnBelow(FindColumn(s, s.columns[i].name), s.columns[i])
      {
        FindOwn(s, i);
        BelowReflexive(s.columns[i].ty);
      }
    case _ =>
  }

  lemma {:induction false} BelowTransitive(a: ColumnType, b: ColumnType, c: ColumnType)
    requires Below(a, b) && Below(b, c)
    ensures Below(a, c)
    decreases c
  {
    if a.TArray? && b.TArray? && c.TArray? {
      BelowTransitive(a.elem, b.elem, c.elem);
    } else if a.TStruct? && b.TStruct? && c.TStruct? {
      forall k | 0 <= k < |c.schema.columns|
        ensures ColumnBelow(FindColumn(a.schema, c.schema.columns[k].name), c.schema.columns[k])
      {
        ColumnTransitive(a.schema, b.schema, c.schema.columns[k]);
      }
      forall i | 0 <= i < |a.schema.columns|
        ensures ColumnIndex(c.schema.columns, a.schema.columns[i].name).Some?
      {
        var j := ColumnIndex(b.schema.columns, a.schema.columns[i].name).value;
        assert ColumnIndex(c.schema.columns, b.schema.columns[j].name).Some?;
      }
    }
  }

  lemma {:induction false} ColumnTransitive(a: Schema, b: Schema, c: Column)
    requires Below(TStruct(a), TStruct(b)) && ColumnBelow(FindColumn(b, c.name), c)
    ensures ColumnBelow(FindColumn(a, c.name), c)
    decreases c
  {
    var ca, cb := FindColumn(a, c.name), FindColumn(b, c.name);
    if cb.Some? {
      var j := ColumnIndex(b.columns, c.name).value;
      assert ColumnBelow(FindColumn(a, b.columns[j].name), b.columns[j]);
      if ca.Some? {
        BelowTransitive(ca.value.ty, cb.value.ty, c.ty);
      }
    }
    NameIsKept(a, b, c.name);
  }

  lemma NameIsKept(a: Schema, b: Schema, name: string)
    ensures Below(TStruct(a), TStruct(b)) && FindColumn(a, name).Some? ==> FindColumn(b, name).Some?
  {
    var at := ColumnIndex(a.columns, name);
    assert Below(TStruct(a), TStruct(b)) && at.Some? ==> ColumnIndex(b.columns, a.columns[at.value].name).Some?;
  }

  // ---- Widening is the least upper bound ----

  lemma {:induction false} WidenIsWellNamed(a: ColumnType, b: ColumnType)
    requires WellNamed(a) && WellNamed(b)
    ensures WellNamed(Widen(a, b))
    decreases a
  {
    if a.TArray? && b.TArray? {
      WidenIsWellNamed(a.elem, b.elem);
    } else if a.TStruct? && b.TStruct? {
      UnifyIsDistinct(a.schema, b.schema);
      var w := Unify(a.schema, b.schema);
      forall i | 0 <= i < |w.columns|
        ensures WellNamed(w.columns[i].ty)
      {
        FindOwn(w, i);
        UnifyLookup(a.schema, b.schema, w.columns[i].name);
        var ca, cb := FindColumn(a.schema, w.columns[i].name), FindColumn(b.schema, w.columns[i].name);
        if ca.Some? && cb.Some? {
          WidenIsWellNamed(ca.value.ty, cb.value.ty);
        }
      }
    }
  }

  /** Both types sit below their widening. */
  lemma {:induction false} WidenIsAbove(a: ColumnType, b: ColumnType)
    requires WellNamed(a) && WellNamed(b)
    ensures Below(a, Widen(a, b)) && Below(b, Widen(a, b))
    decreases a
  {
    if a.TArray? && b.TArray? {
      WidenIsAbove(a.elem, b.elem);
    } else if a.TStruct? && b.TStruct? {
      UnifyIsAbove(a.schema, b.schema);
    } else {
      BelowReflexive(a);
      BelowReflexive(b);
    }
  }

  lemma {:induction false} UnifyIsAbove(a: Schema, b: Schema)
    requires WellNamed(TStruct(a)) && WellNamed(TStruct(b))
    ensures Below(TStruct(a), TStruct(Unify(a, b))) && Below(TStruct(b), TStruct(Unify(a, b)))
    decreases a
  {
    var w := Unify(a, b);
    UnifyIsDistinct(a, b);
    forall i | 0 <= i < |w.columns|
      ensures ColumnBelow(FindColumn(a, w.columns[i].name), w.columns[i])
      ensures ColumnBelow(FindColumn(b, w.columns[i].name), w.columns[i])
    {
      FindOwn(w, i);
      UnifiedColumnIsAbove(a, b, w.columns[i]);
    }
    forall i | 0 <= i < |a.columns|
      ensures ColumnIndex(w.columns, a.columns[i].name).Some?
    {
      UnifyNames(a, b, a.columns[i].name);
    }
    forall i | 0 <= i < |b.columns|
      ensures ColumnIndex(w.columns, b.columns[i].name).Some?
    {
      UnifyNames(a, b, b.columns[i].name);
    }
  }

  lemma {:induction false} UnifiedColumnIsAbove(a: Schema, b: Schema, c: Column)
    requires WellNamed(TStruct(a)) && WellNamed(TStruct(b)) && FindColumn(Unify(a, b), c.name) == Some(c)
    ensures ColumnBelow(FindColumn(a, c.name), c) && ColumnBelow(FindColumn(b, c.name), c)
    decreases a, 0
  {
    UnifyLookup(a, b, c.name);
    var ca, cb := FindColumn(a, c.name), FindColumn(b, c.name);
    if ca.Some? && cb.Some? {
      assert ca.value == a.columns[ColumnIndex(a.columns, c.name).value];
      WidenIsAbove(ca.value.ty, cb.value.ty);
    } else if ca.Some? {
      BelowReflexive(ca.value.ty);
    } else {
      BelowReflexive(cb.value.ty);
    }
  }

  /** … and below every type both sit below. */
  lemma {:induction false} WidenIsLeast(a: ColumnType, b: ColumnType, c: ColumnType)
    requires Below(a, c) && Below(b, c)
    ensures Below(Widen(a, b), c)
    decreases a
  {
    if a.TArray? && b.TArray? && c.TArray? {
      WidenIsLeast(a.elem, b.elem, c.elem);
    } else if a.TStruct? && b.TStruct? && c.TStruct? {
      UnifyIsLeast(a.schema, b.schema, c.schema);
    }
  }

  lemma {:induction false} UnifyIsLeast(a: Schema, b: Schema, c: Schema)
    requires Below(TStruct(a), TStruct(c)) && Below(TStruct(b), TStruct(c))
    ensures Below(TStruct(Unify(a, b)), TStruct(c))
    decreases a
  {
    var w := Unify(a, b);
    forall k | 0 <= k < |c.columns|
      ensures ColumnBelow(FindColumn(w, c.columns[k].name), c.columns[k])
    {
      assert ColumnBelow(FindColumn(a, c.columns[k].name), c.columns[k]);
      assert ColumnBelow(FindColumn(b, c.columns[k].name), c.columns[k]);
      UnifiedColumnIsLeast(a, b, c.columns[k]);
    }
    forall i | 0 <= i < |w.columns|
      ensures ColumnIndex(c.columns, w.columns[i].name).Some?
    {
      NameStays(a, b, c, w.columns[i].name);
    }
  }

  lemma NameStays(a: Schema, b: Schema, c: Schema, name: string)
    requires Below(TStruct(a), TStruct(c)) && Below(TStruct(b), TStruct(c))
    requires ColumnIndex(Unify(a, b).columns, name).Some?
    ensures ColumnIndex(c.columns, name).Some?
  {
    UnifyNames(a, b, name);
    if ColumnIndex(a.columns, name).Some? {
      assert ColumnIndex(c.columns, a.columns[ColumnIndex(a.columns, name).value].name).Some?;
    } else {
      assert ColumnIndex(c.columns, b.columns[ColumnIndex(b.columns, name).value].name).Some?;
    }
  }

  lemma {:induction false} UnifiedColumnIsLeast(a: Schema, b: Schema, c: Column)
    requires ColumnBelow(FindColumn(a, c.name), c) && ColumnBelow(FindColumn(b, c.name), c)
    ensures ColumnBelow(FindColumn(Unify(a, b), c.name), c)
    decreases a, 0
  {
    UnifyLookup(a, b, c.name);
    var ca, cb := FindColumn(a, c.name), FindColumn(b, c.name);
    if ca.Some? && cb.Some? {
      assert ca.value == a.columns[ColumnIndex(a.columns, c.name).value];
      WidenIsLeast(ca.value.ty, cb.value.ty, c.ty);
    }
  }

  // ---- What follows: the laws the program relies on ----

  /** Equal up to the order of columns: each sits below the other. */
  predicate Alike(a: ColumnType, b: ColumnType) {
    Below(a, b) && Below(b, a)
  }

  /** Widening commutes, up to the order of columns. */
  lemma WidenCommutes(a: ColumnType, b: ColumnType)
    requires WellNamed(a) && WellNamed(b)
    ensures Alike(Widen(a, b), Widen(b, a))
  {
    WidenIsAbove(a, b);
    WidenIsAbove(b, a);
    WidenIsLeast(a, b, Widen(b, a));
    WidenIsLeast(b, a, Widen(a, b));
  }

  /** … and associates. */
  lemma WidenAssociates(a: ColumnType, b: ColumnType, c: ColumnType)
    requires WellNamed(a) && WellNamed(b) && WellNamed(c)
    ensures Alike(Widen(Widen(a, b), c), Widen(a, Widen(b, c)))
  {
    var left, right := Widen(Widen(a, b), c), Widen(a, Widen(b, c));
    WidenIsWellNamed(a, b);
    WidenIsWellNamed(b, c);
    WidenIsAbove(a, b);
    WidenIsAbove(b, c);
    WidenIsAbove(Widen(a, b), c);
    WidenIsAbove(a, Widen(b, c));
    BelowTransitive(a, Widen(a, b), left);
    BelowTransitive(b, Widen(a, b), left);
    BelowTransitive(b, Widen(b, c), right);
    BelowTransitive(c, Widen(b, c), right);
    WidenIsLeast(b, c, left);
    WidenIsLeast(a, Widen(b, c), left);
    WidenIsLeast(a, b, right);
    WidenIsLeast(Widen(a, b), c, right);
  }

  /** Likewise two schemas, in either order. */
  lemma UnifyCommutes(a: Schema, b: Schema)
    requires WellNamed(TStruct(a)) && WellNamed(TStruct(b))
    ensures Alike(TStruct(Unify(a, b)), TStruct(Unify(b, a)))
  {
    WidenCommutes(TStruct(a), TStruct(b));
  }

  lemma OriginAbsorbs(a: Provenance, b: Provenance)
    ensures MergeProvenance(b, a) == b <==> OriginBelow(a, b)
  {
  }

  /** A type absorbs exactly what sits below it. Names may repeat. */
  lemma {:induction false} AbsorbsExactly(a: ColumnType, b: ColumnType)
    ensures Widen(b, a) == b <==> Below(a, b)
    decreases b
  {
    if a.TArray? && b.TArray? {
      AbsorbsExactly(a.elem, b.elem);
    } else if a.TStruct? && b.TStruct? {
      UnifyAbsorbsExactly(a.schema, b.schema);
    }
  }

  lemma {:induction false} UnifyAbsorbsExactly(a: Schema, b: Schema)
    ensures Unify(b, a) == b <==> Below(TStruct(a), TStruct(b))
    decreases b
  {
    ColumnsAbsorbExactly(a, b, UnifyColumns(b.columns, a.columns));
    NothingOnlyIn(a.columns, b.columns);
    JoinedIsFirst(UnifyColumns(b.columns, a.columns), OnlyIn(a.columns, b.columns), b.columns);
  }

  lemma JoinedIsFirst(left: seq<Column>, right: seq<Column>, all: seq<Column>)
    requires |left| == |all|
    ensures left + right == all <==> left == all && right == []
  {
    assert (left + right)[..|left|] == left && left + [] == left;
  }

  lemma {:induction false} ColumnsAbsorbExactly(a: Schema, b: Schema, left: seq<Column>)
    requires left == UnifyColumns(b.columns, a.columns)
    ensures left == b.columns <==>
            forall i :: 0 <= i < |b.columns| ==> ColumnBelow(FindColumn(a, b.columns[i].name), b.columns[i])
    decreases b, 0
  {
    forall i | 0 <= i < |b.columns|
      ensures left[i] == b.columns[i] <==> ColumnBelow(FindColumn(a, b.columns[i].name), b.columns[i])
    {
      UnifyAt(b.columns, a.columns, i);
      ColumnAbsorbsExactly(a, b.columns[i]);
    }
  }

  lemma {:induction false} ColumnAbsorbsExactly(a: Schema, b: Column)
    ensures Against(b, a.columns) == b <==> ColumnBelow(FindColumn(a, b.name), b)
    decreases b
  {
    assert a == Schema(a.columns);
    var c := FindColumn(a, b.name);
    if c.Some? {
      AbsorbsExactly(c.value.ty, b.ty);
      OriginAbsorbs(c.value.provenance, b.provenance);
    }
  }

  lemma {:induction false} NothingOnlyIn(a: seq<Column>, b: seq<Column>)
    ensures OnlyIn(a, b) == [] <==> forall i :: 0 <= i < |a| ==> ColumnIndex(b, a[i].name).Some?
  {
    if a != [] {
      NothingOnlyIn(a[1..], b);
      assert forall i :: 0 <= i < |a| - 1 ==> a[1..][i] == a[i + 1];
      assert forall i :: 0 < i < |a| ==> a[i] == a[1..][i - 1];
    }
  }

  /** A schema unified with itself is itself exactly when it sits below itself, as every schema without repeated names does. */
  lemma UnifyIsIdempotentExactly(s: Schema)
    ensures Unify(s, s) == s <==> Below(TStruct(s), TStruct(s))
    ensures WellNamed(TStruct(s)) ==> Unify(s, s) == s
  {
    UnifyAbsorbsExactly(s, s);
    if WellNamed(TStruct(s)) {
      BelowReflexive(TStruct(s));
    }
  }

  /** A repeated name with another type is not: its second column is widened against the first. */
  lemma RepeatedNameWidens()
    ensures var s := Schema([NewColumn("a", TInt, false), NewColumn("a", TText, false)]);
            Unify(s, s) == Schema([NewColumn("a", TInt, false), NewColumn("a", TJson, false)])
  {
    var cols := [NewColumn("a", TInt, false), NewColumn("a", TText, false)];
    UnifyAt(cols, cols, 0);
    UnifyAt(cols, cols, 1);
    NothingOnlyIn(cols, cols);
    assert ColumnIndex(cols, "a") == Some(0);
    assert UnifyColumns(cols, cols) == [NewColumn("a", TInt, false), NewColumn("a", TJson, false)];
  }
}
