/** The parsed program (`qfs-parser`): expressions, pipelines and statements. Source spans are dropped. */
module Ast {
  import opened Wrappers
  import opened Types

  datatype Op = Eq | Ne | Lt | Gt | Le | Ge | And | Or | Not | Like | Match | Add | Sub | Mul | Div

  datatype Literal =
    | Str(s: string)
    | IntLit(n: I64)
    | FloatLit(x: real)
    | BoolLit(b: bool)
    | NullLit
    | Size(magnitude: U64, unit: string)
    | Typed(introducer: string, raw: string)
    | BytesLit(bytes: seq<Byte>)

  /** A lambda parameter's annotation, already parsed: `Resource`, a column type, or an unknown token. */
  datatype TypeAnn = ResourceAnn | ColumnAnn(ty: ColumnType) | UnknownAnn(token: string)

  datatype Param = Param(name: string, ann: Option<TypeAnn>)

  datatype Expr =
    | Lit(lit: Literal)
    | Col(name: string)
    | FieldPath(segs: seq<string>)
    | Call(fname: string, args: seq<Expr>)
    | Binary(op: Op, lhs: Expr, rhs: Expr)
    | Unary(uop: Op, operand: Expr)
    | InSet(subject: Expr, members: seq<Expr>)
    | Between(subject: Expr, low: Expr, high: Expr)
    | LikePat(subject: Expr, pattern: Expr)
    | AnyOf(aop: Op, subject: Expr, members: seq<Expr>)
    | Lambda(params: seq<Param>, body: Expr)
    | ArrayOf(elems: seq<Expr>)
    | StructOf(inits: seq<FieldInit>)

  datatype FieldInit = FieldInit(name: string, init: Expr)

  datatype PathSegment = Segment(name: string, version: Option<string>, glob: bool, selection: bool)

  datatype PathExpr = PathExpr(segments: seq<PathSegment>, asOf: Option<string>)

  datatype ValuesClause = ValuesClause(columns: Option<seq<string>>, rows: seq<seq<Expr>>)

  datatype Source =
    | FromPath(path: PathExpr)
    | FromValues(values: ValuesClause)
    | Subquery(inner: Pipeline)
    | FromName(name: string)

  datatype Pipeline = Pipeline(source: Source, ops: seq<PipeOp>)

  datatype Projection = Star | Proj(expr: Expr, alias: Option<string>)

  datatype Assignment = Assignment(name: string, value: Expr)

  datatype OrderKey = OrderKey(expr: Expr, descending: bool)

  /** `driver.action(args)`; each argument is positional or named. */
  datatype CallRef = CallRef(driver: string, action: string, args: seq<CallArg>)

  datatype CallArg = CallArg(name: Option<string>, value: Expr)

  datatype OfTarget = NamedType(name: string) | InlineType(cols: seq<Column>)

  datatype PipeOp =
    | Where(pred: Expr)
    | Select(projs: seq<Projection>)
    | Extend(asgns: seq<Assignment>)
    | Set(asgns: seq<Assignment>)
    | Aggregate(projs: seq<Projection>)
    | GroupBy(keys: seq<Expr>)
    | OrderBy(sortKeys: seq<OrderKey>)
    | Limit(n: I64)
    | Distinct
    | Join(source: Source, on: Expr)
    | Union(sub: Pipeline)
    | Except(sub: Pipeline)
    | Intersect(sub: Pipeline)
    | As(alias: string)
    | Expand(field: seq<string>)
    | Decode(fmt: string)
    | Encode(fmt: string)
    | CallOp(call: CallRef)
    | Transform(name: string)
    | Switch(stage: SwitchStage)
    | Follow(fieldName: string)
    | Post(body: Expr)
    | Of(target: OfTarget)

  datatype SwitchStage = SwitchStage(discriminant: string, arms: seq<SwitchArm>)

  datatype SwitchArm = SwitchArm(tag: Option<string>, ops: seq<PipeOp>, write: Option<ArmWrite>)

  datatype ArmWrite = ArmWrite(verb: EffectVerb, target: PathExpr, returning: Option<seq<Projection>>)

  datatype EffectVerb = Insert | Upsert | Update | Remove

  datatype EffectBody =
    | BodyValues(values: ValuesClause)
    | BodyPipeline(pipeline: Pipeline)
    | BodySetWhere(assignments: seq<Assignment>, filter: Option<Expr>)

  datatype EffectStmt =
    EffectStmt(verb: EffectVerb, target: PathExpr, body: EffectBody, returning: Option<seq<Projection>>)

  datatype Statement =
    | Query(pipeline: Pipeline)
    | Effect(effect: EffectStmt)
    | Ddl(doPlan: Option<Statement>, asQuery: Option<Statement>)
    | PlanWrap(commit: bool, inner: Statement)
    | Let(name: string, value: Statement, body: Statement)
    | Transaction(members: seq<Statement>)
}
