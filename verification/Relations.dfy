/** The query side of evaluation: folding a pipeline into a typed relation description. */
module Relations {
  import opened Wrappers
  import opened Types
  import opened Ast
  import opened Errors
  import Stdlib
  import Lambda
  import Typeck
  import opened Schemas
  import opened Paths
  import opened Registry
  import Plan
  import Text

  /** A description of how a query produces rows, each node with its output schema. */
  datatype PlanSource =
    | Scan(driver: string, path: string, scanned: Schema)
    | ValuesRel(typed: Schema)
    | Filter(input: PlanSource)
    | Project(input: PlanSource, typed: Schema)
    | Extended(input: PlanSource, typed: Schema)
    | Shape(input: PlanSource)
    | Expanded(input: PlanSource, typed: Schema)
    | Coded(input: PlanSource, fmt: string, typed: Schema)
    | SetOp(lhs: PlanSource, rhs: PlanSource, typed: Schema)
    | Joined(lhs: PlanSource, rhs: PlanSource, typed: Schema)
    | Transformed(input: PlanSource, typed: Schema)
  {
    function SchemaOf(): Schema {
      match this
      case Scan(_, _, s) => s
      case Filter(input) => input.SchemaOf()
      case Shape(input) => input.SchemaOf()
      case _ => typed
    }
  }

  /** What evaluation reads: the mounts, and the function registry when one is wired. */
  datatype World = World(mounts: Mounts, std: Option<Stdlib.Functions>)

  /** The lexical environment of `LET`: names to folded relations. */
  type Env = map<string, PlanSource>

  type Relation = Result<PlanSource, EvalError>

  function SegmentNames(segments: seq<PathSegment>): (r: seq<string>)
    ensures |r| == |segments|
    ensures forall i :: 0 <= i < |segments| ==> r[i] == segments[i].name
  {
    seq(|segments|, i requires 0 <= i < |segments| => segments[i].name)
  }

  predicate HasSelection(segments: seq<PathSegment>) {
    exists i :: 0 <= i < |segments| && segments[i].selection
  }

  function VfsPath(driver: Driver, sub: string): string {
    "/" + driver.id + "/" + sub
  }

  /** The described schema; an undescribable node is late-bound. */
  function DescribeSchema(driver: Driver, vfs: string): Schema {
    match driver.describe(vfs)
    case Some(desc) => desc.schema
    case None => EMPTY_SCHEMA
  }

  function Digits(n: nat): string {
    var last := [(n % 10 + 48) as char];
    if n < 10 then last else Digits(n / 10) + last
  }

  function ValuesSchema(values: ValuesClause): Schema {
    var width := if values.rows == [] then 0 else |values.rows[0]|;
    Schema(seq(width, i requires 0 <= i < width =>
      var named := values.columns.Some? && i < |values.columns.value|;
      NewColumn(if named then values.columns.value[i] else "col" + Digits(i), TUnknown, true)))
  }

  // ---- Projection ----

  function TypeOfFn(w: World, name: string, argc: nat, underAggregate: bool): Result<ColumnType, EvalError> {
    if w.std.None? then Ok(TUnknown)
    else
      match w.std.value.builtin(name)
      case None => if w.std.value.hasAlias(name) then Ok(TUnknown) else Err(Fn(UnknownFunction(name)))
      case Some(b) =>
        if !b.Sig().AcceptsArity(argc) then Err(Fn(Arity(name, b.Sig().minArgs, argc)))
        else if b.AggregateFn? && !underAggregate then Err(Fn(AggregateOutsideAggregate(name)))
        else if b.Scalar? && underAggregate then Err(Fn(ScalarInAggregate(name)))
        else Ok(b.Sig().resultType)
  }

  function ProjectOne(w: World, input: Schema, p: Projection, underAggregate: bool, position: nat): Result<seq<Column>, EvalError> {
    match p
    case Star => Ok(input.columns)
    case Proj(Col(name), alias) =>
      var found :- if input.columns == [] then Ok(NewColumn(name, TUnknown, true))
                   else (match FindColumn(input, name) case Some(c) => Ok(c) case None => Err(Type(UnknownColumn(name))));
      Ok([if alias.Some? then found.(name := alias.value) else found])
    case Proj(Call(fname, args), alias) =>
      var ty :- TypeOfFn(w, fname, |args|, underAggregate);
      Ok([NewColumn(if alias.Some? then alias.value else "expr" + Digits(position), ty, true)])
    case Proj(_, alias) =>
      Ok([NewColumn(if alias.Some? then alias.value else "expr" + Digits(position), TUnknown, true)])
  }

  function ProjectAll(w: World, input: Schema, projs: seq<Projection>, underAggregate: bool, done: seq<Column>): Result<seq<Column>, EvalError>
    decreases projs
  {
    if projs == [] then Ok(done)
    else
      var cols :- ProjectOne(w, input, projs[0], underAggregate, |done|);
      ProjectAll(w, input, projs[1..], underAggregate, done + cols)
  }

  function ProjectSchema(w: World, input: Schema, projs: seq<Projection>, underAggregate: bool): Result<Schema, EvalError> {
    if projs == [Star] then Ok(input)
    else
      var cols :- ProjectAll(w, input, projs, underAggregate, []);
      Ok(Schema(cols))
  }

  /** `EXTEND`/`SET`: an assigned column becomes late-bound in place, or is appended. */
  function Assigned(cols: seq<Column>, asgns: seq<Assignment>): seq<Column>
    decreases asgns
  {
    if asgns == [] then cols
    else
      var next := match ColumnIndex(cols, asgns[0].name)
        case Some(i) => cols[i := cols[i].(ty := TUnknown)]
        case None => cols + [NewColumn(asgns[0].name, TUnknown, true)];
      Assigned(next, asgns[1..])
  }

  // ---- Assertions ----

  predicate SameStructure(asserted: Schema, actual: Schema) {
    && (forall c | c in asserted.columns ::
          FindColumn(actual, c.name).Some? &&
          var got := FindColumn(actual, c.name).value;
          c.ty.TUnknown? || got.ty.TUnknown? || c.ty == got.ty)
    && (forall c | c in actual.columns :: FindColumn(asserted, c.name).Some?)
  }

  function CheckOf(w: World, target: OfTarget, actual: Schema): Result<(), EvalError> {
    var asserted :- match target
      case InlineType(cols) => Ok(Schema(cols))
      case NamedType(name) => if name in w.mounts.types then Ok(w.mounts.types[name]) else Err(OfTypeUnresolved(name));
    if actual.columns == [] || SameStructure(asserted, actual) then Ok(()) else Err(OfAssertionFailed)
  }

  /** The first declared input column the incoming relation lacks. */
  function MissingInput(declared: seq<Column>, incoming: Schema): Option<string> {
    if declared == [] then None
    else if FindColumn(incoming, declared[0].name).None? then Some(declared[0].name)
    else MissingInput(declared[1..], incoming)
  }

  function FoldTransform(w: World, input: PlanSource, name: string): Relation {
    if name !in w.mounts.transforms then Err(TransformNotExecutable(name))
    else
      var def := w.mounts.transforms[name];
      var missing := if input.SchemaOf().columns == [] then None else MissingInput(def.input.columns, input.SchemaOf());
      match missing
      case Some(column) => Err(TransformInputMissing(name, column))
      case None => Ok(Transformed(input, def.output))
  }

  function TypecheckPredicate(w: World, pred: Expr, schema: Schema): (r: Result<(), EvalError>)
    ensures r.Err? ==> !r.error.Resolve?
  {
    if w.std.None? then Ok(())
    else
      var _ :- Typeck.CheckExpr(pred, map[], schema, w.std);
      Ok(())
  }

  // ---- The fold ----

  function ScanPath(w: World, path: PathExpr): (r: Relation)
    ensures r.Err? ==> !r.error.Resolve?
  {
    if HasSelection(path.segments) then Err(SelectionNotLowered(path))
    else
      var full := Render(SegmentNames(path.segments));
      match ResolvePath(w.mounts, full)
      case None => Err(UnroutedPath(full))
      case Some((driver, sub)) =>
        var vfs := VfsPath(driver, sub);
        Ok(Scan(driver.id, vfs, DescribeSchema(driver, vfs)))
  }

  /** A set operation reconciles both branches to the union of their columns. */
  function Combine(input: PlanSource, branch: Relation): Relation {
    var rhs :- branch;
    Ok(SetOp(input, rhs, Unify(input.SchemaOf(), rhs.SchemaOf())))
  }

  function JoinWithSource(input: PlanSource, source: Relation): Relation {
    var rhs :- source;
    Ok(Joined(input, rhs, Schema(input.SchemaOf().columns + rhs.SchemaOf().columns)))
  }

  function EvalSource(w: World, source: Source, env: Env): Relation
    decreases source
  {
    match source
    case FromName(name) => if name in env then Ok(env[name]) else Err(Resolve(UnknownBinding(name)))
    case FromPath(path) => ScanPath(w, path)
    case FromValues(values) => Ok(ValuesRel(ValuesSchema(values)))
    case Subquery(inner) => FoldQuery(w, inner, env)
  }

  function FoldQuery(w: World, p: Pipeline, env: Env): Relation
    decreases p, 1
  {
    var src :- EvalSource(w, p.source, env);
    FoldOps(w, src, p.ops, env)
  }

  function FoldOps(w: World, src: PlanSource, ops: seq<PipeOp>, env: Env): Relation
    decreases ops, 0
  {
    if ops == [] then Ok(src)
    else
      var next :- FoldOp(w, src, ops[0], env);
      FoldOps(w, next, ops[1..], env)
  }

  function FoldOp(w: World, input: PlanSource, op: PipeOp, env: Env): Relation
    decreases op
  {
    match op
    case Union(sub) => Combine(input, FoldQuery(w, sub, env))
    case Except(sub) => Combine(input, FoldQuery(w, sub, env))
    case Intersect(sub) => Combine(input, FoldQuery(w, sub, env))
    case Join(source, _) => JoinWithSource(input, EvalSource(w, source, env))
    case _ => FoldSimple(w, input, op)
  }

  /** The stages that look at nothing but their input relation. */
  function FoldSimple(w: World, input: PlanSource, op: PipeOp): (r: Relation)
    ensures r.Err? ==> !r.error.Resolve?
  {
    match op
    case Where(pred) =>
      (match TypecheckPredicate(w, pred, input.SchemaOf())
       case Ok(_) => Ok(Filter(input))
       case Err(e) => Err(e))
    case Select(projs) =>
      (match ProjectSchema(w, input.SchemaOf(), projs, false)
       case Ok(schema) => Ok(Project(input, schema))
       case Err(e) => ProjectionErrors(w, input.SchemaOf(), projs, false); Err(e))
    case Aggregate(projs) =>
      (match ProjectSchema(w, input.SchemaOf(), projs, true)
       case Ok(schema) => Ok(Project(input, schema))
       case Err(e) => ProjectionErrors(w, input.SchemaOf(), projs, true); Err(e))
    case Extend(asgns) => Ok(Extended(input, Schema(Assigned(input.SchemaOf().columns, asgns))))
    case Set(asgns) => Ok(Extended(input, Schema(Assigned(input.SchemaOf().columns, asgns))))
    case Expand(field) =>
      if input.SchemaOf().columns == [] then Ok(Expanded(input, EMPTY_SCHEMA))
      else
        (match ExpandSchema(input.SchemaOf(), if field == [] then "" else field[|field| - 1])
         case Ok(schema) => Ok(Expanded(input, schema))
         case Err(e) => Err(Type(e)))
    case Decode(fmt) => Ok(Coded(input, fmt, EMPTY_SCHEMA))
    case Encode(fmt) => Ok(Coded(input, fmt, EMPTY_SCHEMA))
    case Transform(name) => FoldTransform(w, input, name)
    case Switch(_) => Err(SwitchNotTerminal)
    case Follow(_) => Err(FollowOutsideDeclaredBody)
    case Post(_) => Err(PostOutsideDeclaredBody)
    case Of(target) =>
      (match CheckOf(w, target, input.SchemaOf())
       case Ok(_) => Ok(Shape(input))
       case Err(e) => Err(e))
    case _ => Ok(Shape(input))
  }

  lemma {:induction false} ProjectAllErrors(w: World, input: Schema, projs: seq<Projection>, underAggregate: bool, done: seq<Column>)
    ensures var r := ProjectAll(w, input, projs, underAggregate, done); r.Err? ==> !r.error.Resolve?
    decreases projs
  {
    if projs != [] && ProjectOne(w, input, projs[0], underAggregate, |done|).Ok? {
      ProjectAllErrors(w, input, projs[1..], underAggregate, done + ProjectOne(w, input, projs[0], underAggregate, |done|).value);
    }
  }

  lemma ProjectionErrors(w: World, input: Schema, projs: seq<Projection>, underAggregate: bool)
    ensures var r := ProjectSchema(w, input, projs, underAggregate); r.Err? ==> !r.error.Resolve?
  {
    ProjectAllErrors(w, input, projs, underAggregate, []);
  }

  /** The fold as a loop over the stages. */
  method FoldQueryLoop(w: World, p: Pipeline, env: Env) returns (r: Relation)
    ensures r == FoldQuery(w, p, env)
  {
    var src :- EvalSource(w, p.source, env);
    for i := 0 to |p.ops|
      invariant FoldQuery(w, p, env) == FoldOps(w, src, p.ops[i..], env)
    {
      assert p.ops[i..][0] == p.ops[i] && p.ops[i..][1..] == p.ops[i + 1..];
      src :- FoldOp(w, src, p.ops[i], env);
    }
    return Ok(src);
  }

  /** Folding a concatenation of stages is folding one part and then the other. */
  lemma {:induction false} FoldOpsConcat(w: World, src: PlanSource, a: seq<PipeOp>, b: seq<PipeOp>, env: Env)
    ensures FoldOps(w, src, a + b, env) ==
            match FoldOps(w, src, a, env) case Ok(mid) => FoldOps(w, mid, b, env) case Err(e) => Err(e)
    decreases a
  {
    if a == [] {
      assert a + b == b;
    } else {
      assert (a + b)[0] == a[0] && (a + b)[1..] == a[1..] + b;
      if FoldOp(w, src, a[0], env).Ok? {
        FoldOpsConcat(w, FoldOp(w, src, a[0], env).value, a[1..], b, env);
      }
    }
  }
}
