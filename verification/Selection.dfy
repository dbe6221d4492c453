/** Selection segments: `/x/@A` is lowered to `/x |> where key == A` at every read position. */
module Selection {
  import opened Wrappers
  import opened Types
  import opened Ast
  import opened Errors
  import opened Paths
  import opened Registry
  import Stdlib
  import Lambda
  import Percent
  import Text

  datatype SelectionError =
    | NotFinal(path: string)
    | Unrouted(path: string)
    | NoChildKey(path: string, declared: ChildAddress)
    | KeyArity(path: string, expected: nat, given: nat)
    | BadValue(path: string, value: string, column: string)

  /** What lowering reads: the mounts, and how a float is parsed. */
  datatype Planner = Planner(mounts: Mounts, parseFloat: string -> Option<real>)

  // ---- Key values ----

  function Digits(s: string): (r: Option<nat>) {
    if s == [] then Some(0)
    else
      var last := s[|s| - 1];
      if !('0' <= last <= '9') then None
      else
        match Digits(s[..|s| - 1])
        case None => None
        case Some(n) => Some(n * 10 + (last as int - 48))
  }

  /** An optional sign, one or more decimal digits, and a value in range. */
  function ParseI64(s: string): Option<I64> {
    var digits := if s != [] && (s[0] == '-' || s[0] == '+') then s[1..] else s;
    var magnitude := if digits == [] then None else Digits(digits);
    match magnitude
    case None => None
    case Some(m) =>
      var n: int := if s[0] == '-' then 0 - (m as int) else m as int;
      if -0x8000_0000_0000_0000 <= n < 0x8000_0000_0000_0000 then Some(n) else None
  }

  function KeyLiteral(pl: Planner, raw: string, ty: Option<ColumnType>): Option<Literal> {
    match Percent.PercentDecode(raw)
    case None => None
    case Some(decoded) =>
      match ty
      case Some(TInt) => (match ParseI64(decoded) case Some(n) => Some(IntLit(n)) case None => None)
      case Some(TFloat) => (match pl.parseFloat(decoded) case Some(x) => Some(FloatLit(x)) case None => None)
      case Some(TBool) =>
        if decoded == "true" then Some(BoolLit(true)) else if decoded == "false" then Some(BoolLit(false)) else None
      case _ => Some(Str(decoded))
  }

  function DeclaredType(schema: Schema, column: string): Option<ColumnType> {
    match FindColumn(schema, column) case Some(c) => Some(c.ty) case None => None
  }

  /** Each value typed by the key column in its position. */
  function KeyLiterals(pl: Planner, base: string, schema: Schema, columns: seq<string>, values: seq<string>): (r: Result<seq<Literal>, SelectionError>)
    requires |columns| == |values|
    ensures r.Ok? ==> |r.value| == |columns|
  {
    if columns == [] then Ok([])
    else
      match KeyLiteral(pl, values[0], DeclaredType(schema, columns[0]))
      case None => Err(BadValue(base, values[0], columns[0]))
      case Some(lit) =>
        var rest :- KeyLiterals(pl, base, schema, columns[1..], values[1..]);
        Ok([lit] + rest)
  }

  function KeyTest(column: string, lit: Literal): Expr {
    Binary(Eq, Col(column), Lit(lit))
  }

  /** `c1 == v1 AND c2 == v2 …`, grouped to the left. */
  function KeyPredicate(columns: seq<string>, lits: seq<Literal>): Expr
    requires |columns| == |lits| > 0
    decreases |columns|
  {
    var n := |columns| - 1;
    var last := KeyTest(columns[n], lits[n]);
    if n == 0 then last else Binary(And, KeyPredicate(columns[..n], lits[..n]), last)
  }

  // ---- Taking a selection off a path ----

  function Names(segments: seq<PathSegment>): (r: seq<string>)
    ensures |r| == |segments| && forall i :: 0 <= i < |segments| ==> r[i] == segments[i].name
  {
    seq(|segments|, i requires 0 <= i < |segments| => segments[i].name)
  }

  /** The position of the first selection segment. */
  function SelectionIndex(segments: seq<PathSegment>): (r: Option<nat>)
    ensures r.Some? ==> r.value < |segments| && segments[r.value].selection
    ensures r.Some? ==> forall j :: 0 <= j < r.value ==> !segments[j].selection
    ensures r.None? ==> forall j :: 0 <= j < |segments| ==> !segments[j].selection
  {
    if segments == [] then None
    else if segments[0].selection then Some(0)
    else
      match SelectionIndex(segments[1..])
      case None => None
      case Some(i) => Some(i + 1)
  }

  /** A selected address: its base node, the base's declared key columns and the values they must hold. */
  datatype Address = Address(base: PathExpr, columns: seq<string>, lits: seq<Literal>)

  function KeyColumns(pl: Planner, base: string): Result<(Schema, seq<string>), SelectionError> {
    match ResolvePath(pl.mounts, base)
    case None => Err(Unrouted(base))
    case Some((driver, sub)) =>
      match driver.describe("/" + driver.id + "/" + sub)
      case None => Err(Unrouted(base))
      case Some(desc) =>
        if desc.childAddress.Key? then Ok((desc.schema, desc.childAddress.columns))
        else Err(NoChildKey(base, desc.childAddress))
  }

  /** The address a path selects, if it ends in a selection segment. */
  function SelectedAddress(pl: Planner, path: PathExpr): (r: Result<Option<Address>, SelectionError>)
    ensures r.Ok? && r.value.Some? ==>
      var a := r.value.value;
      |a.columns| == |a.lits| > 0 && SelectionIndex(a.base.segments).None?
    ensures r == Ok(None) <==> SelectionIndex(path.segments).None?
  {
    match SelectionIndex(path.segments)
    case None => Ok(None)
    case Some(at) =>
      if at + 1 != |path.segments| then Err(NotFinal(Render(Names(path.segments))))
      else
        var base := Render(Names(path.segments[..at]));
        var key :- KeyColumns(pl, base);
        var values := SplitOn(path.segments[at].name, ',');
        if |values| != |key.1| then Err(KeyArity(base, |key.1|, |values|))
        else
          var lits :- KeyLiterals(pl, base, key.0, key.1, values);
          NoneSelectedBefore(path.segments, at);
          Ok(Some(Address(path.(segments := path.segments[..at]), key.1, lits)))
  }

  lemma NoneSelectedBefore(segments: seq<PathSegment>, at: nat)
    requires at < |segments| && forall j :: 0 <= j < at ==> !segments[j].selection
    ensures SelectionIndex(segments[..at]).None?
  {
  }

  /** Strips the selection and returns the predicate it stands for. */
  function TakeSelection(pl: Planner, path: PathExpr): Result<(PathExpr, Option<Expr>), SelectionError> {
    var address :- SelectedAddress(pl, path);
    match address
    case None => Ok((path, None))
    case Some(a) => Ok((a.base, Some(KeyPredicate(a.columns, a.lits))))
  }

  /** The loop over the key columns, and-ing one test after another onto the predicate. */
  method BuildPredicate(pl: Planner, base: string, schema: Schema, columns: seq<string>, values: seq<string>)
      returns (r: Result<Expr, SelectionError>)
    requires |columns| == |values| > 0
    ensures KeyLiterals(pl, base, schema, columns, values).Ok? ==>
      r == Ok(KeyPredicate(columns, KeyLiterals(pl, base, schema, columns, values).value))
    ensures KeyLiterals(pl, base, schema, columns, values).Err? ==>
      r == Err(KeyLiterals(pl, base, schema, columns, values).error)
  {
    var built: Option<Expr> := None;
    ghost var lits: seq<Literal> := [];
    ghost var total := KeyLiterals(pl, base, schema, columns, values);
    OntoNothing(total);
    assert columns[0..] == columns && values[0..] == values;
    for i := 0 to |columns|
      invariant |lits| == i
      invariant i == 0 ==> built.None?
      invariant i > 0 ==> built == Some(KeyPredicate(columns[..i], lits))
      invariant total == Onto(lits, KeyLiterals(pl, base, schema, columns[i..], values[i..]))
    {
      LiteralsStep(pl, base, schema, columns, values, i);
      var lit := KeyLiteral(pl, values[i], DeclaredType(schema, columns[i]));
      if lit.None? {
        assert total == Err(BadValue(base, values[i], columns[i]));
        return Err(BadValue(base, values[i], columns[i]));
      }
      var test := KeyTest(columns[i], lit.value);
      OntoStep(lits, lit.value, KeyLiterals(pl, base, schema, columns[i + 1..], values[i + 1..]));
      PredicateStep(columns, lits, lit.value, i);
      lits := lits + [lit.value];
      built := Some(if built.None? then test else Binary(And, built.value, test));
    }
    assert columns[..|columns|] == columns && lits + [] == lits;
    assert total == Ok(lits);
    return Ok(built.value);
  }

  lemma PredicateStep(columns: seq<string>, lits: seq<Literal>, lit: Literal, i: nat)
    requires i < |columns| && |lits| == i
    ensures KeyPredicate(columns[..i + 1], lits + [lit]) ==
            if i == 0 then KeyTest(columns[i], lit) else Binary(And, KeyPredicate(columns[..i], lits), KeyTest(columns[i], lit))
  {
    assert columns[..i + 1][..i] == columns[..i] && (lits + [lit])[..i] == lits;
  }

  lemma LiteralsStep(pl: Planner, base: string, schema: Schema, columns: seq<string>, values: seq<string>, i: nat)
    requires |columns| == |values| && i < |columns|
    ensures KeyLiteral(pl, values[i], DeclaredType(schema, columns[i])).None? ==>
      KeyLiterals(pl, base, schema, columns[i..], values[i..]) == Err(BadValue(base, values[i], columns[i]))
    ensures KeyLiteral(pl, values[i], DeclaredType(schema, columns[i])).Some? ==>
      KeyLiterals(pl, base, schema, columns[i..], values[i..]) ==
      Onto([KeyLiteral(pl, values[i], DeclaredType(schema, columns[i])).value], KeyLiterals(pl, base, schema, columns[i + 1..], values[i + 1..]))
  {
    assert columns[i..][1..] == columns[i + 1..] && values[i..][1..] == values[i + 1..];
  }

  ghost function Onto(lits: seq<Literal>, rest: Result<seq<Literal>, SelectionError>): Result<seq<Literal>, SelectionError> {
    match rest case Ok(more) => Ok(lits + more) case Err(e) => Err(e)
  }

  lemma OntoNothing(rest: Result<seq<Literal>, SelectionError>)
    ensures Onto([], rest) == rest
  {
    if rest.Ok? {
      assert [] + rest.value == rest.value;
    }
  }

  lemma OntoStep(lits: seq<Literal>, lit: Literal, rest: Result<seq<Literal>, SelectionError>)
    ensures Onto(lits, Onto([lit], rest)) == Onto(lits + [lit], rest)
  {
    if rest.Ok? {
      assert lits + ([lit] + rest.value) == (lits + [lit]) + rest.value;
    }
  }

  // ---- The rewrite ----

  function LowerPath(pl: Planner, path: PathExpr): Result<(Source, seq<PipeOp>), SelectionError> {
    var taken :- TakeSelection(pl, path);
    Ok((FromPath(taken.0), if taken.1.Some? then [Where(taken.1.value)] else []))
  }

  /** The main source: its selection becomes the pipeline's first stage. */
  function LowerMain(pl: Planner, source: Source): Result<(Source, seq<PipeOp>), SelectionError>
    decreases source
  {
    match source
    case FromPath(path) => LowerPath(pl, path)
    case Subquery(inner) =>
      var lowered :- LowerPipeline(pl, inner);
      Ok((Subquery(lowered), []))
    case _ => Ok((source, []))
  }

  /** A joined source owns no stages, so its selection wraps it in a sub-query. */
  function LowerJoined(pl: Planner, source: Source): Result<Source, SelectionError>
    decreases source
  {
    match source
    case FromPath(path) =>
      var lowered :- LowerPath(pl, path);
      Ok(if lowered.1 == [] then lowered.0 else Subquery(Pipeline(lowered.0, lowered.1)))
    case Subquery(inner) =>
      var lowered :- LowerPipeline(pl, inner);
      Ok(Subquery(lowered))
    case _ => Ok(source)
  }

  function LowerPipeline(pl: Planner, p: Pipeline): Result<Pipeline, SelectionError>
    decreases p, 1
  {
    var main :- LowerMain(pl, p.source);
    var ops :- LowerOps(pl, p.ops);
    Ok(Pipeline(main.0, main.1 + ops))
  }

  function LowerOps(pl: Planner, ops: seq<PipeOp>): (r: Result<seq<PipeOp>, SelectionError>)
    ensures r.Ok? ==> |r.value| == |ops|
    decreases ops, 0
  {
    if ops == [] then Ok([])
    else
      var first :- LowerOp(pl, ops[0]);
      var rest :- LowerOps(pl, ops[1..]);
      Ok([first] + rest)
  }

  function LowerOp(pl: Planner, op: PipeOp): Result<PipeOp, SelectionError>
    decreases op
  {
    match op
    case Join(source, on) =>
      var lowered :- LowerJoined(pl, source);
      Ok(Join(lowered, on))
    case Union(sub) =>
      var lowered :- LowerPipeline(pl, sub);
      Ok(Union(lowered))
    case Except(sub) =>
      var lowered :- LowerPipeline(pl, sub);
      Ok(Except(lowered))
    case Intersect(sub) =>
      var lowered :- LowerPipeline(pl, sub);
      Ok(Intersect(lowered))
    case _ => Ok(op)
  }

  /** The pass over the stages, each rewritten where it stands, after the main source's predicate is inserted in front. */
  method LowerInPlace(pl: Planner, p: Pipeline) returns (r: Result<Pipeline, SelectionError>)
    ensures r == LowerPipeline(pl, p)
  {
    var main := LowerMain(pl, p.source);
    if main.Err? {
      return Err(main.error);
    }
    var ops := p.ops;
    FollowedNothing(LowerOps(pl, p.ops));
    assert p.ops[0..] == p.ops && ops[..0] == [];
    for i := 0 to |p.ops|
      invariant |ops| == |p.ops| && ops[i..] == p.ops[i..]
      invariant LowerOps(pl, p.ops) == Followed(ops[..i], LowerOps(pl, p.ops[i..]))
    {
      assert p.ops[i..][1..] == p.ops[i + 1..];
      var op := LowerOp(pl, ops[i]);
      assert ops[i] == p.ops[i..][0];
      if op.Err? {
        return Err(op.error);
      }
      FollowedStep(ops[..i], op.value, LowerOps(pl, p.ops[i + 1..]));
      ops := ops[i := op.value];
      assert ops[..i + 1] == ops[..i] + [op.value];
    }
    assert p.ops[|p.ops|..] == [] && ops[..|p.ops|] == ops && ops + [] == ops;
    return Ok(Pipeline(main.value.0, main.value.1 + ops));
  }

  ghost function Followed(done: seq<PipeOp>, rest: Result<seq<PipeOp>, SelectionError>): Result<seq<PipeOp>, SelectionError> {
    match rest case Ok(more) => Ok(done + more) case Err(e) => Err(e)
  }

  lemma FollowedNothing(rest: Result<seq<PipeOp>, SelectionError>)
    ensures Followed([], rest) == rest
  {
    if rest.Ok? {
      assert [] + rest.value == rest.value;
    }
  }

  lemma FollowedStep(done: seq<PipeOp>, op: PipeOp, rest: Result<seq<PipeOp>, SelectionError>)
    ensures Followed(done, Followed([op], rest)) == Followed(done + [op], rest)
  {
    if rest.Ok? {
      assert done + ([op] + rest.value) == (done + [op]) + rest.value;
    }
  }

  // ---- What a pipeline denotes ----

  type RowEnv = Lambda.ValueEnv

  type Rows = seq<RowEnv>

  /** What the rest of the engine contributes: stored rows, and the stages that hold no source. */
  datatype Engine = Engine(
    std: Stdlib.Functions,
    scan: PathExpr -> Rows,
    values: ValuesClause -> Rows,
    bound: string -> Rows,
    stage: (PipeOp, Rows) -> Rows,
    join: (Rows, Rows, Expr) -> Rows,
    combine: (PipeOp, Rows, Rows) -> Rows)

  /** Which set operation a stage is, without its branch. */
  function Kind(op: PipeOp): PipeOp
    requires op.Union? || op.Except? || op.Intersect?
  {
    var nothing := Pipeline(FromName(""), []);
    match op case Union(_) => Union(nothing) case Except(_) => Except(nothing) case Intersect(_) => Intersect(nothing)
  }

  function Keep(rows: Rows, test: RowEnv -> bool): Rows {
    if rows == [] then [] else (if test(rows[0]) then [rows[0]] else []) + Keep(rows[1..], test)
  }

  /** `where` keeps the rows on which the predicate is true. */
  predicate Satisfies(engine: Engine, pred: Expr, row: RowEnv) {
    Lambda.EvalData(pred, row, engine.std) == Ok(Bool(true))
  }

  /** The value a row gives a column name. */
  function Cell(row: RowEnv, column: string): Option<Value> {
    if column in row then (if row[column].Data? then Some(row[column].v) else None)
    else Lambda.KeywordConst(column)
  }

  /** The row holds the address's value in every declared key column. */
  predicate HoldsKey(row: RowEnv, columns: seq<string>, lits: seq<Literal>)
    requires |columns| == |lits|
  {
    forall i :: 0 <= i < |columns| ==>
      Cell(row, columns[i]).Some? && Lambda.ValuesEqual(Cell(row, columns[i]).value, Lambda.LiteralToValue(lits[i]))
  }

  /** A path denotes its node's rows; a selected path, those of them that hold the selected key. */
  function DenotePath(pl: Planner, engine: Engine, path: PathExpr): Rows {
    match SelectedAddress(pl, path)
    case Ok(None) => engine.scan(path)
    case Ok(Some(a)) => Keep(engine.scan(a.base), row => HoldsKey(row, a.columns, a.lits))
    case Err(_) => []
  }

  function DenoteSource(pl: Planner, engine: Engine, source: Source): Rows
    decreases source
  {
    match source
    case FromPath(path) => DenotePath(pl, engine, path)
    case FromValues(values) => engine.values(values)
    case FromName(name) => engine.bound(name)
    case Subquery(inner) => Denote(pl, engine, inner)
  }

  function Denote(pl: Planner, engine: Engine, p: Pipeline): Rows
    decreases p, 1
  {
    DenoteOps(pl, engine, DenoteSource(pl, engine, p.source), p.ops)
  }

  function DenoteOps(pl: Planner, engine: Engine, rows: Rows, ops: seq<PipeOp>): Rows
    decreases ops, 0
  {
    if ops == [] then rows else DenoteOps(pl, engine, DenoteOp(pl, engine, rows, ops[0]), ops[1..])
  }

  function DenoteOp(pl: Planner, engine: Engine, rows: Rows, op: PipeOp): Rows
    decreases op
  {
    match op
    case Where(pred) => Keep(rows, row => Satisfies(engine, pred, row))
    case Join(source, on) => engine.join(rows, DenoteSource(pl, engine, source), on)
    case Union(sub) => engine.combine(Kind(op), rows, Denote(pl, engine, sub))
    case Except(sub) => engine.combine(Kind(op), rows, Denote(pl, engine, sub))
    case Intersect(sub) => engine.combine(Kind(op), rows, Denote(pl, engine, sub))
    case _ => engine.stage(op, rows)
  }

  // ---- Lowering keeps the denotation ----

  lemma KeyTestMeaning(engine: Engine, row: RowEnv, column: string, lit: Literal)
    ensures var v := Lambda.EvalData(KeyTest(column, lit), row, engine.std);
            if Cell(row, column).Some?
            then v == Ok(Bool(Lambda.ValuesEqual(Cell(row, column).value, Lambda.LiteralToValue(lit))))
            else v.Err?
  {
    assert Lambda.EvalData(Lit(lit), row, engine.std) == Ok(Lambda.LiteralToValue(lit));
    var cell := Lambda.EvalData(Col(column), row, engine.std);
    var named := Lambda.Eval(Col(column), row, engine.std);
    assert column in row ==> named == Ok(row[column]);
    assert column !in row && Lambda.KeywordConst(column).Some? ==> named == Ok(Lambda.Data(Lambda.KeywordConst(column).value));
    assert column !in row && Lambda.KeywordConst(column).None? ==> named.Err?;
    assert if Cell(row, column).Some? then cell == Ok(Cell(row, column).value) else cell.Err?;
  }

  /** The compiled predicate holds exactly on the rows that hold the key. */
  lemma {:induction false} KeyPredicateMeaning(engine: Engine, row: RowEnv, columns: seq<string>, lits: seq<Literal>)
    requires |columns| == |lits| > 0
    ensures Satisfies(engine, KeyPredicate(columns, lits), row) <==> HoldsKey(row, columns, lits)
    ensures var v := Lambda.EvalData(KeyPredicate(columns, lits), row, engine.std); v.Ok? ==> v.value.Bool?
    decreases |columns|
  {
    var n := |columns| - 1;
    LastTestMeaning(engine, row, columns[n], lits[n]);
    if n == 0 {
      assert columns == [columns[n]] && lits == [lits[n]];
    } else {
      KeyPredicateMeaning(engine, row, columns[..n], lits[..n]);
      HoldsKeySplit(row, columns, lits);
      AndMeaning(engine, row, KeyPredicate(columns[..n], lits[..n]), KeyTest(columns[n], lits[n]));
    }
  }

  lemma LastTestMeaning(engine: Engine, row: RowEnv, column: string, lit: Literal)
    ensures Satisfies(engine, KeyTest(column, lit), row) <==> HoldsKey(row, [column], [lit])
    ensures var v := Lambda.EvalData(KeyTest(column, lit), row, engine.std); v.Ok? ==> v.value.Bool?
  {
    KeyTestMeaning(engine, row, column, lit);
    assert [column][0] == column && [lit][0] == lit;
  }

  lemma HoldsKeySplit(row: RowEnv, columns: seq<string>, lits: seq<Literal>)
    requires |columns| == |lits| > 0
    ensures var n := |columns| - 1;
            HoldsKey(row, columns, lits) <==>
            HoldsKey(row, columns[..n], lits[..n]) && HoldsKey(row, [columns[n]], [lits[n]])
  {
    var n := |columns| - 1;
    assert forall i :: 0 <= i < n ==> columns[..n][i] == columns[i] && lits[..n][i] == lits[i];
    assert [columns[n]][0] == columns[n];
  }

  lemma AndMeaning(engine: Engine, row: RowEnv, l: Expr, r: Expr)
    requires var v := Lambda.EvalData(l, row, engine.std); v.Ok? ==> v.value.Bool?
    requires var v := Lambda.EvalData(r, row, engine.std); v.Ok? ==> v.value.Bool?
    ensures Satisfies(engine, Binary(And, l, r), row) <==> Satisfies(engine, l, row) && Satisfies(engine, r, row)
    ensures var v := Lambda.EvalData(Binary(And, l, r), row, engine.std); v.Ok? ==> v.value.Bool?
  {
    var a, b := Lambda.EvalData(l, row, engine.std), Lambda.EvalData(r, row, engine.std);
    var both := Lambda.Eval(Binary(And, l, r), row, engine.std);
    assert a.Err? ==> both == Err(a.error);
    assert a.Ok? && !a.value.b ==> both == Ok(Lambda.Data(Bool(false)));
    assert a.Ok? && a.value.b && b.Ok? ==> both == Ok(Lambda.Data(Bool(b.value.b)));
    assert a.Ok? && a.value.b && b.Err? ==> both == Err(b.error);
  }

  lemma {:induction false} KeepAgrees(rows: Rows, f: RowEnv -> bool, g: RowEnv -> bool)
    requires forall row :: f(row) == g(row)
    ensures Keep(rows, f) == Keep(rows, g)
  {
    if rows != [] {
      KeepAgrees(rows[1..], f, g);
    }
  }

  lemma {:induction false} OpsFollow(pl: Planner, engine: Engine, rows: Rows, a: seq<PipeOp>, b: seq<PipeOp>)
    ensures DenoteOps(pl, engine, rows, a + b) == DenoteOps(pl, engine, DenoteOps(pl, engine, rows, a), b)
    decreases a
  {
    if a == [] {
      assert a + b == b;
    } else {
      assert (a + b)[0] == a[0] && (a + b)[1..] == a[1..] + b;
      OpsFollow(pl, engine, DenoteOp(pl, engine, rows, a[0]), a[1..], b);
    }
  }

  /** Reading the base and then filtering is reading the selected rows. */
  lemma LoweredPathDenotes(pl: Planner, engine: Engine, path: PathExpr)
    requires LowerPath(pl, path).Ok?
    ensures var (source, ops) := LowerPath(pl, path).value;
            DenoteOps(pl, engine, DenoteSource(pl, engine, source), ops) == DenotePath(pl, engine, path)
  {
    var address := SelectedAddress(pl, path).value;
    if address.Some? {
      var a := address.value;
      var pred := KeyPredicate(a.columns, a.lits);
      assert SelectedAddress(pl, a.base) == Ok(None);
      forall row: RowEnv
        ensures Satisfies(engine, pred, row) == HoldsKey(row, a.columns, a.lits)
      {
        KeyPredicateMeaning(engine, row, a.columns, a.lits);
      }
      KeepAgrees(engine.scan(a.base), row => Satisfies(engine, pred, row), row => HoldsKey(row, a.columns, a.lits));
      OneFilter(pl, engine, engine.scan(a.base), pred);
    }
  }

  lemma OneFilter(pl: Planner, engine: Engine, rows: Rows, pred: Expr)
    ensures DenoteOps(pl, engine, rows, [Where(pred)]) == Keep(rows, row => Satisfies(engine, pred, row))
  {
    assert [Where(pred)][1..] == [];
    assert DenoteOp(pl, engine, rows, Where(pred)) == Keep(rows, row => Satisfies(engine, pred, row));
  }

  lemma {:induction false} LoweredMainDenotes(pl: Planner, engine: Engine, source: Source)
    requires LowerMain(pl, source).Ok?
    ensures var (lowered, ops) := LowerMain(pl, source).value;
            DenoteOps(pl, engine, DenoteSource(pl, engine, lowered), ops) == DenoteSource(pl, engine, source)
    decreases source
  {
    if source.FromPath? {
      LoweredPathDenotes(pl, engine, source.path);
    } else if source.Subquery? {
      LoweringKeepsMeaning(pl, engine, source.inner);
    }
  }

  lemma {:induction false} LoweredJoinDenotes(pl: Planner, engine: Engine, source: Source)
    requires LowerJoined(pl, source).Ok?
    ensures DenoteSource(pl, engine, LowerJoined(pl, source).value) == DenoteSource(pl, engine, source)
    decreases source
  {
    if source.FromPath? {
      LoweredPathDenotes(pl, engine, source.path);
    } else if source.Subquery? {
      LoweringKeepsMeaning(pl, engine, source.inner);
    }
  }

  /** A lowered pipeline denotes the rows the original denoted. */
  lemma {:induction false} LoweringKeepsMeaning(pl: Planner, engine: Engine, p: Pipeline)
    requires LowerPipeline(pl, p).Ok?
    ensures Denote(pl, engine, LowerPipeline(pl, p).value) == Denote(pl, engine, p)
    decreases p, 1
  {
    var (source, front) := LowerMain(pl, p.source).value;
    var ops := LowerOps(pl, p.ops).value;
    LoweredMainDenotes(pl, engine, p.source);
    OpsFollow(pl, engine, DenoteSource(pl, engine, source), front, ops);
    LoweredOpsDenote(pl, engine, DenoteSource(pl, engine, p.source), p.ops);
  }

  lemma {:induction false} LoweredOpsDenote(pl: Planner, engine: Engine, rows: Rows, ops: seq<PipeOp>)
    requires LowerOps(pl, ops).Ok?
    ensures DenoteOps(pl, engine, rows, LowerOps(pl, ops).value) == DenoteOps(pl, engine, rows, ops)
    decreases ops, 0
  {
    if ops != [] {
      LoweredOpDenotes(pl, engine, rows, ops[0]);
      LoweredOpsDenote(pl, engine, DenoteOp(pl, engine, rows, ops[0]), ops[1..]);
      assert LowerOps(pl, ops).value[1..] == LowerOps(pl, ops[1..]).value;
    }
  }

  lemma LowerOpForm(pl: Planner, op: PipeOp, after: PipeOp)
    requires LowerOp(pl, op) == Ok(after)
    ensures op.Union? || op.Except? || op.Intersect? ==>
      && (after.Union? || after.Except? || after.Intersect?)
      && LowerPipeline(pl, op.sub) == Ok(after.sub)
      && Kind(after) == Kind(op)
    ensures op.Join? ==> after.Join? && after.on == op.on && LowerJoined(pl, op.source) == Ok(after.source)
    ensures !op.Union? && !op.Except? && !op.Intersect? && !op.Join? ==> after == op
  {
  }

  lemma SetStageDenotes(pl: Planner, engine: Engine, rows: Rows, op: PipeOp)
    requires op.Union? || op.Except? || op.Intersect?
    ensures DenoteOp(pl, engine, rows, op) == engine.combine(Kind(op), rows, Denote(pl, engine, op.sub))
  {
  }

  lemma JoinStageDenotes(pl: Planner, engine: Engine, rows: Rows, op: PipeOp)
    requires op.Join?
    ensures DenoteOp(pl, engine, rows, op) == engine.join(rows, DenoteSource(pl, engine, op.source), op.on)
  {
  }

  lemma {:induction false} LoweredOpDenotes(pl: Planner, engine: Engine, rows: Rows, op: PipeOp)
    requires LowerOp(pl, op).Ok?
    ensures DenoteOp(pl, engine, rows, LowerOp(pl, op).value) == DenoteOp(pl, engine, rows, op)
    decreases op
  {
    var after := LowerOp(pl, op).value;
    LowerOpForm(pl, op, after);
    if op.Union? || op.Except? || op.Intersect? {
      LoweringKeepsMeaning(pl, engine, op.sub);
      SetStageDenotes(pl, engine, rows, op);
      SetStageDenotes(pl, engine, rows, after);
    } else if op.Join? {
      LoweredJoinDenotes(pl, engine, op.source);
      JoinStageDenotes(pl, engine, rows, op);
      JoinStageDenotes(pl, engine, rows, after);
    }
  }

  // ---- Nothing is left to lower ----

  predicate SourceLowered(source: Source)
    decreases source
  {
    match source
    case FromPath(path) => SelectionIndex(path.segments).None?
    case Subquery(inner) => Lowered(inner)
    case _ => true
  }

  /** No read position of the pipeline holds a selection segment. */
  predicate Lowered(p: Pipeline)
    decreases p, 1
  {
    SourceLowered(p.source) && OpsLowered(p.ops)
  }

  predicate OpsLowered(ops: seq<PipeOp>)
    decreases ops, 0
  {
    ops == [] || (OpLowered(ops[0]) && OpsLowered(ops[1..]))
  }

  predicate OpLowered(op: PipeOp)
    decreases op
  {
    match op
    case Join(source, _) => SourceLowered(source)
    case Union(sub) => Lowered(sub)
    case Except(sub) => Lowered(sub)
    case Intersect(sub) => Lowered(sub)
    case _ => true
  }

  lemma OneFilterIsClean(pred: Expr)
    ensures OpsLowered([Where(pred)])
  {
    assert OpLowered(Where(pred)) && OpsLowered([]);
    assert [Where(pred)][1..] == [];
  }

  lemma LoweredPathIsClean(pl: Planner, path: PathExpr)
    requires LowerPath(pl, path).Ok?
    ensures var (source, ops) := LowerPath(pl, path).value; SourceLowered(source) && OpsLowered(ops)
  {
    var (base, pred) := TakeSelection(pl, path).value;
    if pred.Some? {
      OneFilterIsClean(pred.value);
    }
  }

  lemma {:induction false} LoweredSourceIsClean(pl: Planner, source: Source)
    ensures LowerMain(pl, source).Ok? ==>
      SourceLowered(LowerMain(pl, source).value.0) && OpsLowered(LowerMain(pl, source).value.1)
    ensures LowerJoined(pl, source).Ok? ==> SourceLowered(LowerJoined(pl, source).value)
    decreases source
  {
    if source.FromPath? {
      if LowerPath(pl, source.path).Ok? {
        LoweredPathIsClean(pl, source.path);
      }
    } else if source.Subquery? {
      LoweredIsClean(pl, source.inner);
    }
  }

  /** After lowering, no selection segment is left in any source, join, sub-query or branch. */
  lemma {:induction false} LoweredIsClean(pl: Planner, p: Pipeline)
    ensures LowerPipeline(pl, p).Ok? ==> Lowered(LowerPipeline(pl, p).value)
    decreases p, 1
  {
    LoweredSourceIsClean(pl, p.source);
    LoweredOpsAreClean(pl, p.ops);
    if LowerPipeline(pl, p).Ok? {
      OpsLoweredConcat(LowerMain(pl, p.source).value.1, LowerOps(pl, p.ops).value);
    }
  }

  lemma {:induction false} OpsLoweredConcat(a: seq<PipeOp>, b: seq<PipeOp>)
    requires OpsLowered(a) && OpsLowered(b)
    ensures OpsLowered(a + b)
  {
    if a == [] {
      assert a + b == b;
    } else {
      assert (a + b)[0] == a[0] && (a + b)[1..] == a[1..] + b;
      OpsLoweredConcat(a[1..], b);
    }
  }

  lemma {:induction false} LoweredOpsAreClean(pl: Planner, ops: seq<PipeOp>)
    ensures LowerOps(pl, ops).Ok? ==> OpsLowered(LowerOps(pl, ops).value)
    decreases ops, 0
  {
    if ops != [] {
      LoweredOpIsClean(pl, ops[0]);
      LoweredOpsAreClean(pl, ops[1..]);
      if LowerOps(pl, ops).Ok? {
        assert LowerOps(pl, ops).value[1..] == LowerOps(pl, ops[1..]).value;
      }
    }
  }

  lemma {:induction false} LoweredOpIsClean(pl: Planner, op: PipeOp)
    ensures LowerOp(pl, op).Ok? ==> OpLowered(LowerOp(pl, op).value)
    decreases op
  {
    match op
    case Join(source, _) => LoweredSourceIsClean(pl, source);
    case Union(sub) => LoweredIsClean(pl, sub);
    case Except(sub) => LoweredIsClean(pl, sub);
    case Intersect(sub) => LoweredIsClean(pl, sub);
    case _ =>
  }

  lemma {:induction false} CleanSourceIsKept(pl: Planner, source: Source)
    requires SourceLowered(source)
    ensures LowerMain(pl, source) == Ok((source, [])) && LowerJoined(pl, source) == Ok(source)
    decreases source
  {
    if source.Subquery? {
      CleanIsKept(pl, source.inner);
    }
  }

  /** A pipeline with no selection lowers to itself, so lowering twice is lowering once. */
  lemma {:induction false} CleanIsKept(pl: Planner, p: Pipeline)
    requires Lowered(p)
    ensures LowerPipeline(pl, p) == Ok(p)
    decreases p, 1
  {
    CleanSourceIsKept(pl, p.source);
    CleanOpsAreKept(pl, p.ops);
    assert [] + p.ops == p.ops;
  }

  lemma {:induction false} CleanOpsAreKept(pl: Planner, ops: seq<PipeOp>)
    requires OpsLowered(ops)
    ensures LowerOps(pl, ops) == Ok(ops)
    decreases ops, 0
  {
    if ops != [] {
      CleanOpIsKept(pl, ops[0]);
      CleanOpsAreKept(pl, ops[1..]);
      assert ops == [ops[0]] + ops[1..];
    }
  }

  lemma {:induction false} CleanOpIsKept(pl: Planner, op: PipeOp)
    requires OpLowered(op)
    ensures LowerOp(pl, op) == Ok(op)
    decreases op
  {
    match op
    case Join(source, _) => CleanSourceIsKept(pl, source);
    case Union(sub) => CleanIsKept(pl, sub);
    case Except(sub) => CleanIsKept(pl, sub);
    case Intersect(sub) => CleanIsKept(pl, sub);
    case _ =>
  }

  lemma LoweringIsIdempotent(pl: Planner, p: Pipeline)
    requires LowerPipeline(pl, p).Ok?
    ensures LowerPipeline(pl, LowerPipeline(pl, p).value) == LowerPipeline(pl, p)
  {
    LoweredIsClean(pl, p);
    CleanIsKept(pl, LowerPipeline(pl, p).value);
  }

  // ---- Composite keys round-trip ----

  /** Each value percent-encoded. */
  function Encoded(values: seq<string>, keep: Byte -> bool): (r: seq<string>)
    ensures |r| == |values|
    ensures forall i :: 0 <= i < |values| ==> r[i] == Percent.PercentEncode(Text.Utf8(values[i]), keep)
    ensures forall i :: 0 <= i < |values| ==> ',' !in r[i]
  {
    seq(|values|, i requires 0 <= i < |values| => Percent.PercentEncode(Text.Utf8(values[i]), keep))
  }

  /** How a key tuple is written in an address. */
  function KeyAddress(values: seq<string>, keep: Byte -> bool): string {
    JoinWith(Encoded(values, keep), ',')
  }

  predicate IsTextKey(schema: Schema, columns: seq<string>) {
    forall i :: 0 <= i < |columns| ==>
      var ty := DeclaredType(schema, columns[i]);
      ty != Some(TInt) && ty != Some(TFloat) && ty != Some(TBool)
  }

  function TextLiterals(values: seq<string>): (r: seq<Literal>)
    ensures |r| == |values| && forall i :: 0 <= i < |values| ==> r[i] == Str(values[i])
  {
    if values == [] then [] else [Str(values[0])] + TextLiterals(values[1..])
  }

  lemma LiteralOfEncoded(pl: Planner, ty: Option<ColumnType>, value: string, keep: Byte -> bool)
    requires ty != Some(TInt) && ty != Some(TFloat) && ty != Some(TBool)
    ensures KeyLiteral(pl, Percent.PercentEncode(Text.Utf8(value), keep), ty) == Some(Str(value))
  {
    Percent.DecodeInverts(value, keep);
  }

  /** Decoding a written tuple gives the tuple back. */
  lemma {:induction false} LiteralsOfEncoded(pl: Planner, base: string, schema: Schema, columns: seq<string>, values: seq<string>, keep: Byte -> bool)
    requires |columns| == |values| && IsTextKey(schema, columns)
    ensures KeyLiterals(pl, base, schema, columns, Encoded(values, keep)) == Ok(TextLiterals(values))
  {
    if columns != [] {
      var encoded := Encoded(values, keep);
      LiteralOfEncoded(pl, DeclaredType(schema, columns[0]), values[0], keep);
      assert forall i :: 0 <= i < |columns| - 1 ==> columns[1..][i] == columns[i + 1];
      LiteralsOfEncoded(pl, base, schema, columns[1..], values[1..], keep);
      assert encoded[1..] == Encoded(values[1..], keep);
      assert encoded[0] == Percent.PercentEncode(Text.Utf8(values[0]), keep);
    }
  }

  /** A text key tuple, written under its base, is selected as exactly that tuple in declared order. */
  lemma KeyRoundTrip(pl: Planner, base: PathExpr, columns: seq<string>, schema: Schema, values: seq<string>, keep: Byte -> bool)
    requires SelectionIndex(base.segments).None?
    requires KeyColumns(pl, Render(Names(base.segments))) == Ok((schema, columns))
    requires |columns| == |values| > 0 && IsTextKey(schema, columns)
    ensures var path := base.(segments := base.segments + [Segment(KeyAddress(values, keep), None, false, true)]);
            SelectedAddress(pl, path) ==
            Ok(Some(Address(base, columns, TextLiterals(values))))
  {
    var key := Segment(KeyAddress(values, keep), None, false, true);
    var path := base.(segments := base.segments + [key]);
    SelectionLast(base.segments, key);
    assert path.segments[..|base.segments|] == base.segments;
    SplitOfJoin(Encoded(values, keep), ',');
    LiteralsOfEncoded(pl, Render(Names(base.segments)), schema, columns, values, keep);
  }

  lemma {:induction false} SelectionLast(segments: seq<PathSegment>, last: PathSegment)
    requires SelectionIndex(segments).None? && last.selection
    ensures SelectionIndex(segments + [last]) == Some(|segments|)
  {
    if segments != [] {
      assert (segments + [last])[0] == segments[0] && (segments + [last])[1..] == segments[1..] + [last];
      SelectionLast(segments[1..], last);
    }
  }

  /** Distinct tuples never share an address, even between encoders that keep different characters. */
  lemma AddressesAreDistinct(a: seq<string>, b: seq<string>, keepA: Byte -> bool, keepB: Byte -> bool)
    requires a != [] && b != [] && KeyAddress(a, keepA) == KeyAddress(b, keepB)
    ensures a == b
  {
    SplitOfJoin(Encoded(a, keepA), ',');
    SplitOfJoin(Encoded(b, keepB), ',');
    forall i | 0 <= i < |a|
      ensures a[i] == b[i]
    {
      Percent.DecodeInverts(a[i], keepA);
      Percent.DecodeInverts(b[i], keepB);
    }
  }
}
