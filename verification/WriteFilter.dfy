/**
 The write-filter compiler: a `WHERE` becomes an all-or-nothing list of equalities, then a one-row
 selector, the only channel a filter reaches an applier on.
 */
module WriteFilter {
  import opened Wrappers
  import opened Types
  import opened Ast
  import opened Errors
  import opened Stdlib
  import opened Lambda

  /** One equality binding: the column and the constant it must equal. */
  datatype Binding = Binding(name: string, value: Value)

  function EqLeaf(lhs: Expr, rhs: Expr): Option<Binding> {
    match (lhs, rhs)
    case (Col(c), Lit(lit)) => Some(Binding(c, LiteralToValue(lit)))
    case (Lit(lit), Col(c)) => Some(Binding(c, LiteralToValue(lit)))
    case (Col(a), Col(b)) =>
      if KeywordConst(b).Some? then Some(Binding(a, KeywordConst(b).value))
      else if KeywordConst(a).Some? then Some(Binding(b, KeywordConst(a).value))
      else None
    case _ => None
  }

  /** The equality leaves of a conjunction, or nothing as soon as one leaf is no such equality. */
  function CollectEqConstants(e: Expr): Option<seq<Binding>> {
    if e.Binary? && e.op == And then
      match (CollectEqConstants(e.lhs), CollectEqConstants(e.rhs))
      case (Some(l), Some(r)) => Some(l + r)
      case _ => None
    else if e.Binary? && e.op == Eq then
      match EqLeaf(e.lhs, e.rhs)
      case Some(b) => Some([b])
      case None => None
    else None
  }

  predicate Binds(cells: seq<Binding>, name: string) {
    exists i :: 0 <= i < |cells| && cells[i].name == name
  }

  /** One binding per column: a repeated equal one is dropped, a contradictory one refuses the whole filter. */
  function Dedup(cells: seq<Binding>, leaves: seq<Binding>): Option<seq<Binding>>
    decreases leaves
  {
    if leaves == [] then Some(cells)
    else if leaves[0] in cells then Dedup(cells, leaves[1..])
    else if Binds(cells, leaves[0].name) then None
    else Dedup(cells + [leaves[0]], leaves[1..])
  }

  /** The selector's bindings, when the filter is accepted. */
  function SelectorCells(filter: Expr): Option<seq<Binding>> {
    match CollectEqConstants(filter)
    case None => None
    case Some(leaves) => Dedup([], leaves)
  }

  function CellColumns(cells: seq<Binding>): (r: seq<Column>)
    ensures |r| == |cells| && forall i :: 0 <= i < |cells| ==> r[i] == NewColumn(cells[i].name, TUnknown, true)
  {
    seq(|cells|, i requires 0 <= i < |cells| => NewColumn(cells[i].name, TUnknown, true))
  }

  function CellValues(cells: seq<Binding>): (r: seq<Value>)
    ensures |r| == |cells| && forall i :: 0 <= i < |cells| ==> r[i] == cells[i].value
  {
    seq(|cells|, i requires 0 <= i < |cells| => cells[i].value)
  }

  /** A one-row batch of the bindings. */
  function SelectorOf(cells: seq<Binding>): RowBatch {
    RowBatch(Schema(CellColumns(cells)), [Row(CellValues(cells))])
  }

  function WhereSelector(filter: Expr, path: string): Result<RowBatch, EvalError> {
    match SelectorCells(filter)
    case None => Err(WriteFilterUnsupported(path))
    case Some(cells) => Ok(SelectorOf(cells))
  }

  /** The loop that fills the selector's columns and values side by side. */
  method WhereSelectorBatch(filter: Expr, path: string) returns (r: Result<RowBatch, EvalError>)
    ensures r == WhereSelector(filter, path)
  {
    var collected := CollectEqConstants(filter);
    if collected.None? {
      return Err(WriteFilterUnsupported(path));
    }
    var leaves := collected.value;
    var cols: seq<Column>, vals: seq<Value> := [], [];
    ghost var cells: seq<Binding> := [];
    for i := 0 to |leaves|
      invariant cols == CellColumns(cells) && vals == CellValues(cells)
      invariant OnePerColumn(cells)
      invariant Dedup([], leaves) == Dedup(cells, leaves[i..])
    {
      assert leaves[i..][0] == leaves[i] && leaves[i..][1..] == leaves[i + 1..];
      var at := ColumnIndex(cols, leaves[i].name);
      if at.Some? {
        assert cells[at.value].name == leaves[i].name;
        if vals[at.value] != leaves[i].value {
          assert leaves[i] !in cells;
          return Err(WriteFilterUnsupported(path));
        }
        assert leaves[i] == cells[at.value];
      } else {
        assert forall k :: 0 <= k < |cells| ==> cols[k].name == cells[k].name;
        cols := cols + [NewColumn(leaves[i].name, TUnknown, true)];
        vals := vals + [leaves[i].value];
        cells := cells + [leaves[i]];
      }
    }
    return Ok(RowBatch(Schema(cols), [Row(vals)]));
  }

  predicate OnePerColumn(cells: seq<Binding>) {
    forall i, j :: 0 <= i < j < |cells| ==> cells[i].name != cells[j].name
  }

  lemma {:induction false} DedupKeepsOnePerColumn(cells: seq<Binding>, leaves: seq<Binding>)
    requires OnePerColumn(cells) && Dedup(cells, leaves).Some?
    ensures OnePerColumn(Dedup(cells, leaves).value)
    ensures forall b :: b in Dedup(cells, leaves).value <==> b in cells || b in leaves
    decreases leaves
  {
    if leaves != [] {
      assert forall b :: b in leaves <==> b == leaves[0] || b in leaves[1..];
      DedupKeepsOnePerColumn(if leaves[0] in cells then cells else cells + [leaves[0]], leaves[1..]);
    }
  }

  lemma {:induction false} CollectedLeavesExist(e: Expr)
    requires CollectEqConstants(e).Some?
    ensures CollectEqConstants(e).value != []
  {
    if e.op == And {
      CollectedLeavesExist(e.lhs);
    }
  }

  // ---- What a filter means ----

  /** A row by column name. */
  type RowMap = map<string, Value>

  function RowEnv(row: RowMap): ValueEnv {
    map k | k in row :: Data(row[k])
  }

  /** The row passes the filter: the evaluator yields true. */
  predicate Satisfies(filter: Expr, row: RowMap, std: Functions) {
    EvalData(filter, RowEnv(row), std) == Ok(Bool(true))
  }

  /** No column is spelled like a keyword constant (the evaluator would read it before the keyword). */
  predicate NoKeywordColumn(row: RowMap) {
    forall k :: k in row ==> KeywordConst(k).None?
  }

  /** The row carries the bound column with an equal value. */
  predicate Matches(row: RowMap, b: Binding) {
    b.name in row && ValuesEqual(row[b.name], b.value)
  }

  predicate MatchesAll(row: RowMap, cells: seq<Binding>) {
    forall b :: b in cells ==> Matches(row, b)
  }

  /** How the evaluator reads a leaf: a keyword's own constant stands on the column side. */
  predicate LeafHolds(row: RowMap, b: Binding) {
    if KeywordConst(b.name).Some? then ValuesEqual(KeywordConst(b.name).value, b.value) else Matches(row, b)
  }

  lemma ValuesEqualIsSymmetric(a: Value, b: Value)
    ensures ValuesEqual(a, b) == ValuesEqual(b, a)
  {
  }

  lemma AndEvaluates(lhs: Expr, rhs: Expr, env: ValueEnv, std: Functions)
    ensures EvalData(Binary(And, lhs, rhs), env, std) == Ok(Bool(true)) <==>
            EvalData(lhs, env, std) == Ok(Bool(true)) && EvalData(rhs, env, std) == Ok(Bool(true))
  {
  }

  lemma EqEvaluates(lhs: Expr, rhs: Expr, env: ValueEnv, std: Functions)
    ensures EvalData(Binary(Eq, lhs, rhs), env, std) == Ok(Bool(true)) <==>
            && EvalData(lhs, env, std).Ok?
            && EvalData(rhs, env, std).Ok?
            && ValuesEqual(EvalData(lhs, env, std).value, EvalData(rhs, env, std).value)
  {
  }

  lemma OperandEvaluates(name: string, lit: Literal, row: RowMap, std: Functions)
    requires NoKeywordColumn(row)
    ensures EvalData(Lit(lit), RowEnv(row), std) == Ok(LiteralToValue(lit))
    ensures name in row ==> EvalData(Col(name), RowEnv(row), std) == Ok(row[name])
    ensures name !in row && KeywordConst(name).Some? ==> EvalData(Col(name), RowEnv(row), std) == Ok(KeywordConst(name).value)
    ensures name !in row && KeywordConst(name).None? ==> EvalData(Col(name), RowEnv(row), std).Err?
  {
  }

  lemma LeafMeaning(lhs: Expr, rhs: Expr, row: RowMap, std: Functions)
    requires EqLeaf(lhs, rhs).Some? && NoKeywordColumn(row)
    ensures Satisfies(Binary(Eq, lhs, rhs), row, std) <==> LeafHolds(row, EqLeaf(lhs, rhs).value)
  {
    EqEvaluates(lhs, rhs, RowEnv(row), std);
    OperandEvaluates(if lhs.Col? then lhs.name else "", if lhs.Lit? then lhs.lit else NullLit, row, std);
    OperandEvaluates(if rhs.Col? then rhs.name else "", if rhs.Lit? then rhs.lit else NullLit, row, std);
    var l, r := EvalData(lhs, RowEnv(row), std), EvalData(rhs, RowEnv(row), std);
    if l.Ok? && r.Ok? {
      ValuesEqualIsSymmetric(l.value, r.value);
    }
  }

  /** A row passes a collectable filter exactly when each of its leaves holds. */
  lemma {:induction false} FilterMeansLeaves(filter: Expr, row: RowMap, std: Functions)
    requires CollectEqConstants(filter).Some? && NoKeywordColumn(row)
    ensures Satisfies(filter, row, std) <==> forall b :: b in CollectEqConstants(filter).value ==> LeafHolds(row, b)
  {
    if filter.op == And {
      FilterMeansLeaves(filter.lhs, row, std);
      FilterMeansLeaves(filter.rhs, row, std);
      AndEvaluates(filter.lhs, filter.rhs, RowEnv(row), std);
    } else {
      LeafMeaning(filter.lhs, filter.rhs, row, std);
      assert EqLeaf(filter.lhs, filter.rhs).value in CollectEqConstants(filter).value;
    }
  }

  /** … and exactly when each selector cell holds: merging duplicates loses nothing. */
  lemma FilterMeansCells(filter: Expr, row: RowMap, std: Functions)
    requires SelectorCells(filter).Some? && NoKeywordColumn(row)
    ensures Satisfies(filter, row, std) <==> forall b :: b in SelectorCells(filter).value ==> LeafHolds(row, b)
  {
    FilterMeansLeaves(filter, row, std);
    DedupKeepsOnePerColumn([], CollectEqConstants(filter).value);
  }

  /** No binding addresses a column spelled like a keyword. */
  predicate AddressesColumns(cells: seq<Binding>) {
    forall b :: b in cells ==> KeywordConst(b.name).None?
  }

  /**
   The selector addresses exactly the rows the filter passes, for filters whose equalities all have a
   column (not a keyword) on one side.
   */
  lemma SelectorIsFaithful(filter: Expr, row: RowMap, std: Functions)
    requires SelectorCells(filter).Some? && NoKeywordColumn(row) && AddressesColumns(SelectorCells(filter).value)
    ensures Satisfies(filter, row, std) <==> MatchesAll(row, SelectorCells(filter).value)
  {
    FilterMeansCells(filter, row, std);
    var cells := SelectorCells(filter).value;
    assert forall b :: b in cells ==> (LeafHolds(row, b) <==> Matches(row, b));
  }
}
