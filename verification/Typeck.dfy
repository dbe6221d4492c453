/** The plan-time type checker over expressions. */
module Typeck {
  import opened Wrappers
  import opened Types
  import opened Ast
  import opened Errors
  import opened Stdlib
  import Text

  datatype Ty = Prim(ct: ColumnType) | FnTy(params: seq<Ty>, result: Ty) | ResourceTy

  type TyEnv = map<string, Ty>

  type Checked = Result<Ty, EvalError>

  const LATE_BOUND: Ty := Prim(TUnknown)

  function LiteralType(lit: Literal): ColumnType {
    match lit
    case Str(_) => TText
    case IntLit(_) => TInt
    case FloatLit(_) => TFloat
    case BoolLit(_) => TBool
    case NullLit => TUnknown
    case Size(_, _) => TInt
    case Typed(introducer, _) =>
      var word := Text.Lower(introducer);
      if word == "date" then TDate
      else if word == "timestamp" || word == "time" then TTimestamp
      else TUnknown
    case BytesLit(_) => TBytes
  }

  function ParamType(ann: Option<TypeAnn>): Result<Ty, EvalError> {
    match ann
    case None => Ok(LATE_BOUND)
    case Some(ResourceAnn) => Ok(ResourceTy)
    case Some(ColumnAnn(ty)) => if ty.TUnknown? then Err(UnknownTypeAnnotation("unknown")) else Ok(Prim(ty))
    case Some(UnknownAnn(token)) => Err(UnknownTypeAnnotation(token))
  }

  function ColumnTypeOf(name: string, schema: Schema): ColumnType {
    match FindColumn(schema, name)
    case None => TUnknown
    case Some(c) => c.ty
  }

  function CmpOf(op: Op): CmpOp {
    match op
    case Ne => CmpNe
    case Lt => CmpLt
    case Gt => CmpGt
    case Le => CmpLe
    case Ge => CmpGe
    case Like => CmpMatch
    case Match => CmpMatch
    case _ => CmpEq
  }

  predicate IsOrdering(op: CmpOp) {
    op == CmpLt || op == CmpGt || op == CmpLe || op == CmpGe
  }

  predicate IsLateBound(ty: ColumnType) {
    ty.TUnknown? || ty.TJson?
  }

  predicate IsNumeric(ty: ColumnType) {
    ty.TInt? || ty.TFloat? || ty.TDecimal?
  }

  predicate IsTemporal(ty: ColumnType) {
    ty.TTimestamp? || ty.TDate?
  }

  predicate Comparable(op: CmpOp, lhs: ColumnType, rhs: ColumnType) {
    if IsLateBound(lhs) || IsLateBound(rhs) then true
    else if op == CmpMatch then lhs.TText? && rhs.TText?
    else
      var grouped := (IsNumeric(lhs) && IsNumeric(rhs)) || (IsTemporal(lhs) && IsTemporal(rhs));
      if IsOrdering(op) then grouped || (lhs == rhs && (lhs.TText? || IsTemporal(lhs) || IsNumeric(lhs)))
      else grouped || (lhs == rhs && lhs.IsScalar())
  }

  predicate Assignable(expected: ColumnType, actual: ColumnType) {
    IsLateBound(expected) || IsLateBound(actual) || expected == actual || (IsNumeric(expected) && IsNumeric(actual))
  }

  function AsColumnType(ty: Ty): ColumnType {
    if ty.Prim? then ty.ct else TUnknown
  }

  function RequireComparable(op: CmpOp, lhs: Ty, rhs: Ty): Result<(), EvalError> {
    if lhs.Prim? && rhs.Prim? && Comparable(op, lhs.ct, rhs.ct) then Ok(())
    else Err(Type(IncomparableTypes(op, AsColumnType(lhs), AsColumnType(rhs))))
  }

  function RequireAssignable(fname: string, expected: ColumnType, actual: Ty): Result<(), EvalError> {
    if actual.Prim? && Assignable(expected, actual.ct) then Ok(()) else Err(Fn(WrongType(fname)))
  }

  function ArithmeticType(op: Op, lhs: Ty, rhs: Ty): Checked {
    var refused := Err(Type(IncomparableTypes(CmpEq, AsColumnType(lhs), AsColumnType(rhs))));
    if !lhs.Prim? || !rhs.Prim? then refused
    else if IsLateBound(lhs.ct) || IsLateBound(rhs.ct) then Ok(LATE_BOUND)
    else if op != Div && lhs.ct.TInt? && rhs.ct.TInt? then Ok(Prim(TInt))
    else if lhs.ct.TFloat? && rhs.ct.TFloat? then Ok(Prim(TFloat))
    else refused
  }

  // ---- Operators over the checks of their operands: the leftmost error wins ----

  function CheckBinary(op: Op, lhs: Checked, rhs: Checked): Checked {
    var lt :- lhs;
    var rt :- rhs;
    if op == And || op == Or || op == Not then Ok(Prim(TBool))
    else if op == Add || op == Sub || op == Mul || op == Div then ArithmeticType(op, lt, rt)
    else
      var _ :- RequireComparable(CmpOf(op), lt, rt);
      Ok(Prim(TBool))
  }

  function CheckBetween(subject: Checked, low: Checked, high: Checked): Checked {
    var lt :- subject;
    var lo :- low;
    var hi :- high;
    var _ :- RequireComparable(CmpGe, lt, lo);
    var _ :- RequireComparable(CmpLe, lt, hi);
    Ok(Prim(TBool))
  }

  function CheckLike(subject: Checked, pattern: Checked): Checked {
    var lt :- subject;
    var rt :- pattern;
    var _ :- RequireComparable(CmpMatch, lt, rt);
    Ok(Prim(TBool))
  }

  /** Binds parameters at their annotations, left to right; `within` is checked against one position. */
  function BindParams(fname: string, params: seq<Param>, env: TyEnv, position: int, within: ColumnType)
      : (r: Result<(TyEnv, seq<Ty>), EvalError>)
    ensures r.Err? ==> !r.error.Resolve?
  {
    if params == [] then Ok((env, []))
    else
      var ty :- ParamType(params[0].ann);
      if position == 0 && ty.Prim? && !Assignable(ty.ct, within) then Err(Fn(WrongType(fname)))
      else
        var rest :- BindParams(fname, params[1..], env[params[0].name := ty], position - 1, within);
        Ok((rest.0, [ty] + rest.1))
  }

  /** The checker. It never reports a name-resolution error. */
  function CheckExpr(e: Expr, env: TyEnv, schema: Schema, std: Option<Functions>): (r: Checked)
    ensures r.Err? ==> !r.error.Resolve?
    decreases e, 0
  {
    match e
    case Lit(lit) => Ok(Prim(LiteralType(lit)))
    case Col(name) =>
      if name in env then Ok(env[name])
      else
        var word := Text.Lower(name);
        Ok(Prim(if word == "true" || word == "false" then TBool
                else if word == "null" then TUnknown
                else ColumnTypeOf(name, schema)))
    case FieldPath(segs) =>
      (match ResolveFieldPath(schema, segs)
       case Some(ty) => Ok(Prim(ty))
       case None => Ok(LATE_BOUND))
    case ArrayOf(elems) =>
      var tys :- CheckAll(elems, env, schema, std);
      Ok(Prim(TArray(if tys == [] then TUnknown else AsColumnType(tys[0]))))
    case StructOf(inits) =>
      var cols :- CheckInits(inits, env, schema, std);
      Ok(Prim(TStruct(Schema(cols))))
    case Call(fname, args) => CheckCall(fname, args, env, schema, std)
    case Lambda(params, body) =>
      var bound :- BindParams("", params, env, -1, TUnknown);
      var result :- CheckExpr(body, bound.0, schema, std);
      Ok(FnTy(bound.1, result))
    case Binary(op, lhs, rhs) => CheckBinary(op, CheckExpr(lhs, env, schema, std), CheckExpr(rhs, env, schema, std))
    case Unary(_, operand) =>
      var _ :- CheckExpr(operand, env, schema, std);
      Ok(Prim(TBool))
    case InSet(subject, members) =>
      var lt :- CheckExpr(subject, env, schema, std);
      var _ :- CheckMembers(lt, members, env, schema, std);
      Ok(Prim(TBool))
    case AnyOf(_, subject, members) =>
      var lt :- CheckExpr(subject, env, schema, std);
      var _ :- CheckMembers(lt, members, env, schema, std);
      Ok(Prim(TBool))
    case Between(subject, low, high) =>
      CheckBetween(CheckExpr(subject, env, schema, std), CheckExpr(low, env, schema, std), CheckExpr(high, env, schema, std))
    case LikePat(subject, pattern) => CheckLike(CheckExpr(subject, env, schema, std), CheckExpr(pattern, env, schema, std))
  }

  function CheckAll(es: seq<Expr>, env: TyEnv, schema: Schema, std: Option<Functions>): (r: Result<seq<Ty>, EvalError>)
    ensures r.Err? ==> !r.error.Resolve?
    ensures r.Ok? ==> |r.value| == |es|
    decreases es, 1
  {
    if es == [] then Ok([])
    else
      var t :- CheckExpr(es[0], env, schema, std);
      var rest :- CheckAll(es[1..], env, schema, std);
      Ok([t] + rest)
  }

  function CheckInits(inits: seq<FieldInit>, env: TyEnv, schema: Schema, std: Option<Functions>)
      : (r: Result<seq<Column>, EvalError>)
    ensures r.Err? ==> !r.error.Resolve?
    decreases inits, 1
  {
    if inits == [] then Ok([])
    else
      var t :- CheckExpr(inits[0].init, env, schema, std);
      var rest :- CheckInits(inits[1..], env, schema, std);
      Ok([NewColumn(inits[0].name, AsColumnType(t), true)] + rest)
  }

  /** Every member must be equality-comparable to the tested type. */
  function CheckMembers(subject: Ty, members: seq<Expr>, env: TyEnv, schema: Schema, std: Option<Functions>)
      : (r: Result<(), EvalError>)
    ensures r.Err? ==> !r.error.Resolve?
    decreases members, 1
  {
    if members == [] then Ok(())
    else
      var t :- CheckExpr(members[0], env, schema, std);
      var _ :- RequireComparable(CmpEq, subject, t);
      CheckMembers(subject, members[1..], env, schema, std)
  }

  function CheckCall(fname: string, args: seq<Expr>, env: TyEnv, schema: Schema, std: Option<Functions>): (r: Checked)
    ensures r.Err? ==> !r.error.Resolve?
    decreases args, 3
  {
    match std
    case None =>
      var _ :- CheckAll(args, env, schema, std);
      Ok(LATE_BOUND)
    case Some(reg) =>
      match reg.builtin(fname)
      case None =>
        if !reg.hasAlias(fname) then Err(Fn(UnknownFunction(fname)))
        else
          var _ :- CheckAll(args, env, schema, std);
          Ok(LATE_BOUND)
      case Some(b) =>
        if !b.Sig().AcceptsArity(|args|) then Err(Fn(Arity(fname, b.Sig().minArgs, |args|)))
        else
          match b
          case HigherOrder(kind) => CheckHigherOrder(kind, fname, args, env, schema, reg)
          case AggregateFn(_) => Err(Fn(AggregateOutsideAggregate(fname)))
          case _ =>
            var _ :- CheckArgs(fname, args, b.Sig().argTypes, env, schema, std);
            Ok(Prim(b.Sig().resultType))
  }

  function CheckArgs(fname: string, args: seq<Expr>, expected: seq<Option<ColumnType>>, env: TyEnv, schema: Schema, std: Option<Functions>)
      : (r: Result<(), EvalError>)
    ensures r.Err? ==> !r.error.Resolve?
    decreases args, 1
  {
    if args == [] then Ok(())
    else
      var t :- CheckExpr(args[0], env, schema, std);
      var _ :- if expected != [] && expected[0].Some? then RequireAssignable(fname, expected[0].value, t) else Ok(());
      CheckArgs(fname, args[1..], if expected == [] then [] else expected[1..], env, schema, std)
  }

  function CheckHigherOrder(kind: HigherOrderKind, fname: string, args: seq<Expr>, env: TyEnv, schema: Schema, reg: Functions)
      : (r: Checked)
    requires |args| >= 2
    ensures r.Err? ==> !r.error.Resolve?
    decreases args, 2
  {
    var coll :- CheckExpr(args[0], env, schema, Some(reg));
    var elem := if coll.Prim? && coll.ct.TArray? then coll.ct.elem else TUnknown;
    if args[1].Lambda? then
      var bound :- BindParams(fname, args[1].params, env, if kind == ReduceKind then 1 else 0, elem);
      var result :- CheckExpr(args[1].body, bound.0, schema, Some(reg));
      match kind
      case MapKind => Ok(Prim(TArray(AsColumnType(result))))
      case FilterKind => Ok(coll)
      case ReduceKind => Ok(result)
    else
      var _ :- CheckExpr(args[1], env, schema, Some(reg));
      Ok(LATE_BOUND)
  }
}
