/** The D1 driver's lowering of a filtered write: a selector becomes a parameter-indexed SQL predicate. */
module D1Write {
  import opened Wrappers
  import opened Types
  import opened Ast
  import opened Stdlib
  import opened Lambda
  import opened WriteFilter
  import Plan

  datatype Param = PNull | PBool(b: bool) | PInt(n: I64) | PFloat(x: real) | PText(s: string) | PBytes(bytes: seq<Byte>)

  /** The bound parameter for a value; `render` is the JSON text of a composite one. */
  function ParamOf(v: Value, render: Value -> string): Param {
    match v
    case Null => PNull
    case Bool(b) => PBool(b)
    case Int(n) => PInt(n)
    case Timestamp(t) => PInt(t)
    case Float(x) => PFloat(x)
    case Text(s) => PText(s)
    case Bytes(b) => PBytes(b)
    case _ => PText(render(v))
  }

  /** `col = ?` with the index of its parameter, or a conjunction. */
  datatype SqlPredicate = Cmp(col: string, param: nat) | Both(left: SqlPredicate, right: SqlPredicate)

  function ParamsOf(values: seq<Value>, render: Value -> string): (r: seq<Param>)
    ensures |r| == |values| && forall i :: 0 <= i < |values| ==> r[i] == ParamOf(values[i], render)
  {
    seq(|values|, i requires 0 <= i < |values| => ParamOf(values[i], render))
  }

  /** The leaves `cols[from] = ?from`, … joined onto `acc` from the left. */
  function JoinLeaves(acc: SqlPredicate, cols: seq<Column>, from: nat): SqlPredicate
    requires from <= |cols|
    decreases |cols| - from
  {
    if from == |cols| then acc else JoinLeaves(Both(acc, Cmp(cols[from].name, from)), cols, from + 1)
  }

  /** Drops the columns or values beyond the shorter of the two. */
  function Shorter(selector: RowBatch): nat
    requires selector.rows != []
  {
    var cols, vals := |selector.schema.columns|, |selector.rows[0].values|;
    if cols < vals then cols else vals
  }

  function SelectorPredicate(selector: Option<RowBatch>): Option<SqlPredicate> {
    if selector.None? || selector.value.rows == [] then None
    else
      var n := Shorter(selector.value);
      if n == 0 then None
      else Some(JoinLeaves(Cmp(selector.value.schema.columns[0].name, 0), selector.value.schema.columns[..n], 1))
  }

  function SelectorParams(selector: Option<RowBatch>, render: Value -> string): seq<Param> {
    if selector.None? || selector.value.rows == [] then []
    else ParamsOf(selector.value.rows[0].values[..Shorter(selector.value)], render)
  }

  /** The loop that pushes a parameter and a leaf per selector column. */
  method BuildSelectorWhere(selector: Option<RowBatch>, render: Value -> string)
      returns (pred: Option<SqlPredicate>, params: seq<Param>)
    ensures pred == SelectorPredicate(selector) && params == SelectorParams(selector, render)
  {
    if selector.None? || selector.value.rows == [] {
      return None, [];
    }
    var cols, vals := selector.value.schema.columns, selector.value.rows[0].values;
    var leaves: seq<SqlPredicate> := [];
    params := [];
    while |params| < |cols| && |params| < |vals|
      invariant |leaves| == |params| <= Shorter(selector.value)
      invariant params == ParamsOf(vals[..|params|], render)
      invariant forall i :: 0 <= i < |leaves| ==> leaves[i] == Cmp(cols[i].name, i)
      decreases |cols| - |params|
    {
      leaves := leaves + [Cmp(cols[|params|].name, |params|)];
      params := params + [ParamOf(vals[|params|], render)];
    }
    if leaves == [] {
      return None, params;
    }
    var acc := leaves[0];
    for i := 1 to |leaves|
      invariant JoinLeaves(leaves[0], cols[..|leaves|], 1) == JoinLeaves(acc, cols[..|leaves|], i)
    {
      acc := Both(acc, leaves[i]);
    }
    return Some(acc), params;
  }

  // ---- Update and remove ----

  datatype DmlOp =
    | UpdateRows(assignments: seq<(string, Param)>, where: Option<SqlPredicate>, params: seq<Param>)
    | DeleteRows(where: Option<SqlPredicate>, params: seq<Param>)

  datatype D1Error = NoRowPayload | ManyRows | NoAssignments | MissingWhere | NotLowered

  function Assignments(columns: seq<Column>, values: seq<Value>, render: Value -> string): seq<(string, Param)> {
    var n := if |columns| < |values| then |columns| else |values|;
    seq(n, i requires 0 <= i < n => (columns[i].name, ParamOf(values[i], render)))
  }

  /** The UPDATE and REMOVE arms; a statement without a `WHERE` is refused. */
  function LowerD1(kind: Plan.EffectKind, args: RowBatch, selector: Option<RowBatch>, render: Value -> string): Result<DmlOp, D1Error> {
    var where, params := SelectorPredicate(selector), SelectorParams(selector, render);
    match kind
    case UpdateRows =>
      if args.rows == [] then Err(NoRowPayload)
      else if |args.rows| > 1 then Err(ManyRows)
      else
        var assignments := Assignments(args.schema.columns, args.rows[0].values, render);
        if assignments == [] then Err(NoAssignments)
        else if where.None? then Err(MissingWhere)
        else Ok(UpdateRows(assignments, where, params))
    case RemoveRows => if where.None? then Err(MissingWhere) else Ok(DeleteRows(where, params))
    case _ => Err(NotLowered)
  }

  // ---- What the predicate means ----

  /** SQL equality: never true of NULL; integers and floats compare as numbers. */
  predicate SqlEqual(a: Param, b: Param) {
    match (a, b)
    case (PNull, _) => false
    case (_, PNull) => false
    case (PInt(x), PFloat(y)) => x as real == y
    case (PFloat(x), PInt(y)) => x == y as real
    case _ => a == b
  }

  predicate Holds(pred: SqlPredicate, params: seq<Param>, row: RowMap, render: Value -> string) {
    match pred
    case Cmp(col, i) => col in row && i < |params| && SqlEqual(ParamOf(row[col], render), params[i])
    case Both(l, r) => Holds(l, params, row, render) && Holds(r, params, row, render)
  }

  predicate IsScalar(v: Value) {
    v.Null? || v.Bool? || v.Int? || v.Float? || v.Text? || v.Bytes?
  }

  /** A row of plain scalars (nulls included) with no column spelled like a keyword. */
  predicate PlainRow(row: RowMap) {
    NoKeywordColumn(row) && forall k :: k in row ==> IsScalar(row[k])
  }

  lemma SqlEqualIsValuesEqual(a: Value, b: Value, render: Value -> string)
    requires IsScalar(a) && IsScalar(b) && !b.Null?
    ensures SqlEqual(ParamOf(a, render), ParamOf(b, render)) <==> ValuesEqual(a, b)
  {
  }

  /** The SQL predicate of a filter the planner accepted. */
  function FilterPredicate(cells: seq<Binding>): Option<SqlPredicate> {
    SelectorPredicate(Some(SelectorOf(cells)))
  }

  function FilterParams(cells: seq<Binding>, render: Value -> string): seq<Param> {
    SelectorParams(Some(SelectorOf(cells)), render)
  }

  predicate RowPassesSql(cells: seq<Binding>, row: RowMap, render: Value -> string)
    requires cells != []
  {
    Holds(FilterPredicate(cells).value, FilterParams(cells, render), row, render)
  }

  lemma {:induction false} JoinedLeavesHold(acc: SqlPredicate, cols: seq<Column>, from: nat, params: seq<Param>, row: RowMap, render: Value -> string)
    requires from <= |cols|
    ensures Holds(JoinLeaves(acc, cols, from), params, row, render) <==>
            Holds(acc, params, row, render) && forall i :: from <= i < |cols| ==> Holds(Cmp(cols[i].name, i), params, row, render)
    decreases |cols| - from
  {
    if from < |cols| {
      JoinedLeavesHold(Both(acc, Cmp(cols[from].name, from)), cols, from + 1, params, row, render);
    }
  }

  /** The predicate holds exactly when every cell's column equals its parameter, in SQL's sense. */
  lemma PredicateMeansCells(cells: seq<Binding>, row: RowMap, render: Value -> string)
    requires cells != []
    ensures FilterPredicate(cells).Some?
    ensures RowPassesSql(cells, row, render) <==>
            forall b :: b in cells ==> b.name in row && SqlEqual(ParamOf(row[b.name], render), ParamOf(b.value, render))
  {
    var cols, params := CellColumns(cells), FilterParams(cells, render);
    assert cols[..|cells|] == cols && CellValues(cells)[..|cells|] == CellValues(cells);
    JoinedLeavesHold(Cmp(cols[0].name, 0), cols, 1, params, row, render);
    assert forall i :: 0 <= i < |cells| ==> params[i] == ParamOf(cells[i].value, render);
    assert RowPassesSql(cells, row, render) <==> forall i :: 0 <= i < |cells| ==> Holds(Cmp(cols[i].name, i), params, row, render);
    if RowPassesSql(cells, row, render) {
      forall b | b in cells
        ensures b.name in row && SqlEqual(ParamOf(row[b.name], render), ParamOf(b.value, render))
      {
        var i :| 0 <= i < |cells| && cells[i] == b;
        assert Holds(Cmp(cols[i].name, i), params, row, render);
      }
    } else {
      var i :| 0 <= i < |cells| && !Holds(Cmp(cols[i].name, i), params, row, render);
      assert cells[i] in cells;
    }
  }

  // ---- Faithfulness ----

  lemma {:induction false} CollectedValuesAreScalar(e: Expr)
    requires CollectEqConstants(e).Some?
    ensures forall b :: b in CollectEqConstants(e).value ==> IsScalar(b.value)
  {
    if e.op == And {
      CollectedValuesAreScalar(e.lhs);
      CollectedValuesAreScalar(e.rhs);
    }
  }

  lemma CellsOf(filter: Expr)
    requires SelectorCells(filter).Some?
    ensures SelectorCells(filter).value != [] && OnePerColumn(SelectorCells(filter).value)
    ensures forall b :: b in SelectorCells(filter).value ==> IsScalar(b.value)
  {
    var leaves := CollectEqConstants(filter).value;
    CollectedLeavesExist(filter);
    CollectedValuesAreScalar(filter);
    DedupKeepsOnePerColumn([], leaves);
    assert leaves[0] in leaves;
  }

  /** Every constant is non-null and every binding addresses a real column. */
  predicate PlainCells(cells: seq<Binding>) {
    AddressesColumns(cells) && forall b :: b in cells ==> !b.value.Null?
  }

  /** Some equality compares a keyword with a different constant, so no row can pass. */
  predicate Unsatisfiable(cells: seq<Binding>) {
    exists b :: b in cells && KeywordConst(b.name).Some? && !ValuesEqual(KeywordConst(b.name).value, b.value)
  }

  /** For plain cells the filter, the selector and the SQL predicate pass the same rows. */
  lemma FilterSelectorAndSqlAgree(filter: Expr, row: RowMap, std: Functions, render: Value -> string)
    requires SelectorCells(filter).Some? && PlainRow(row) && PlainCells(SelectorCells(filter).value)
    ensures SelectorCells(filter).value != []
    ensures Satisfies(filter, row, std) <==> MatchesAll(row, SelectorCells(filter).value)
    ensures Satisfies(filter, row, std) <==> RowPassesSql(SelectorCells(filter).value, row, render)
  {
    var cells := SelectorCells(filter).value;
    CellsOf(filter);
    SelectorIsFaithful(filter, row, std);
    PredicateMeansCells(cells, row, render);
    forall b | b in cells && b.name in row
      ensures SqlEqual(ParamOf(row[b.name], render), ParamOf(b.value, render)) <==> ValuesEqual(row[b.name], b.value)
    {
      SqlEqualIsValuesEqual(row[b.name], b.value, render);
    }
  }

  /** The row giving each bound column its constant. */
  function WitnessRow(cells: seq<Binding>): RowMap {
    map b | b in cells && KeywordConst(b.name).None? :: b.name := ValueBoundTo(cells, b.name)
  }

  function ValueBoundTo(cells: seq<Binding>, name: string): Value
    requires Binds(cells, name)
  {
    if cells[0].name == name then cells[0].value else ValueBoundTo(cells[1..], name)
  }

  lemma {:induction false} BoundValueIsUnique(cells: seq<Binding>, b: Binding)
    requires OnePerColumn(cells) && b in cells
    ensures ValueBoundTo(cells, b.name) == b.value
  {
    if cells[0] != b {
      var i :| 0 <= i < |cells| && cells[i] == b;
      assert cells[1..][i - 1] == b;
      BoundValueIsUnique(cells[1..], b);
    }
  }

  lemma WitnessPasses(cells: seq<Binding>)
    requires OnePerColumn(cells) && !Unsatisfiable(cells) && forall b :: b in cells ==> IsScalar(b.value)
    ensures PlainRow(WitnessRow(cells)) && forall b :: b in cells ==> LeafHolds(WitnessRow(cells), b)
  {
    var row := WitnessRow(cells);
    forall b | b in cells && KeywordConst(b.name).None?
      ensures b.name in row && row[b.name] == b.value
    {
      BoundValueIsUnique(cells, b);
    }
  }

  /**
   The exact condition: an accepted filter and its SQL pass the same plain rows exactly when the filter
   passes no row at all, or no constant is null and every equality addresses a real column.
   */
  lemma FilterAndSqlAgreeExactlyWhen(filter: Expr, std: Functions, render: Value -> string)
    requires SelectorCells(filter).Some?
    ensures SelectorCells(filter).value != []
    ensures (forall row :: PlainRow(row) ==> (Satisfies(filter, row, std) <==> RowPassesSql(SelectorCells(filter).value, row, render)))
            <==> PlainCells(SelectorCells(filter).value) || Unsatisfiable(SelectorCells(filter).value)
  {
    var cells := SelectorCells(filter).value;
    CellsOf(filter);
    if PlainCells(cells) {
      forall row | PlainRow(row)
        ensures Satisfies(filter, row, std) <==> RowPassesSql(cells, row, render)
      {
        FilterSelectorAndSqlAgree(filter, row, std, render);
      }
    } else if Unsatisfiable(cells) {
      forall row | PlainRow(row)
        ensures Satisfies(filter, row, std) <==> RowPassesSql(cells, row, render)
      {
        FilterMeansCells(filter, row, std);
        PredicateMeansCells(cells, row, render);
      }
    } else {
      var row := WitnessRow(cells);
      WitnessPasses(cells);
      FilterMeansCells(filter, row, std);
      PredicateMeansCells(cells, row, render);
    }
  }

  /** A null constant: the filter `c == null` passes the row where `c` is null, its SQL passes no row. */
  lemma NullConstantDiffers(col: string, std: Functions, render: Value -> string)
    requires KeywordConst(col).None?
    ensures var filter, row := Binary(Eq, Col(col), Lit(NullLit)), map[col := Null];
            && SelectorCells(filter) == Some([Binding(col, Null)])
            && Satisfies(filter, row, std)
            && !RowPassesSql([Binding(col, Null)], row, render)
  {
    var filter, row := Binary(Eq, Col(col), Lit(NullLit)), map[col := Null];
    assert CollectEqConstants(filter) == Some([Binding(col, Null)]);
    assert [] + [Binding(col, Null)] == [Binding(col, Null)] && [Binding(col, Null)][1..] == [];
    assert Dedup([Binding(col, Null)], []) == Some([Binding(col, Null)]);
    FilterMeansLeaves(filter, row, std);
    PredicateMeansCells([Binding(col, Null)], row, render);
    assert Binding(col, Null) in [Binding(col, Null)];
  }

  /**
   An accepted filter never loses its `WHERE`: REMOVE always lowers, UPDATE lowers exactly when it
   writes one row with at least one column, and both carry the filter's predicate and parameters.
   */
  lemma AcceptedFilterKeepsItsWhere(filter: Expr, path: string, kind: Plan.EffectKind, args: RowBatch, render: Value -> string)
    requires WhereSelector(filter, path).Ok? && (kind.UpdateRows? || kind.RemoveRows?)
    ensures SelectorCells(filter).Some? && FilterPredicate(SelectorCells(filter).value).Some?
    ensures var lowered := LowerD1(kind, args, Some(WhereSelector(filter, path).value), render);
            && (lowered.Ok? <==> kind.RemoveRows? || (|args.rows| == 1 && args.schema.columns != [] && args.rows[0].values != []))
            && (lowered.Ok? ==> && lowered.value.where == FilterPredicate(SelectorCells(filter).value)
                                && lowered.value.params == FilterParams(SelectorCells(filter).value, render))
  {
    CellsOf(filter);
    PredicateMeansCells(SelectorCells(filter).value, map[], render);
  }

  /** Without a selector neither statement lowers. */
  lemma NoSelectorNoStatement(kind: Plan.EffectKind, args: RowBatch, render: Value -> string)
    ensures LowerD1(kind, args, None, render).Err?
  {
  }
}
