/** The checker is sound for the evaluator: what it accepts runs without a type error. */
module Soundness {
  import opened Wrappers
  import opened Types
  import opened Ast
  import opened Errors
  import opened Stdlib
  import opened Lambda
  import opened Typeck

  /** The scalar types whose values the evaluator computes with. */
  predicate Basic(ty: ColumnType) {
    ty.TBool? || ty.TInt? || ty.TFloat? || ty.TText? || ty.TBytes?
  }

  predicate HasType(v: Value, ty: ColumnType) {
    match ty
    case TBool => v.Bool?
    case TInt => v.Int?
    case TFloat => v.Float?
    case TText => v.Text?
    case TBytes => v.Bytes?
    case _ => false
  }

  predicate IsComparison(op: Op) {
    op == Eq || op == Ne || op == Lt || op == Le || op == Gt || op == Ge
  }

  predicate IsArithmetic(op: Op) {
    op == Add || op == Sub || op == Mul || op == Div
  }

  /**
   The expressions the theorem speaks of: literals other than null and typed ones, columns the schema
   describes with a basic type and whose names are no keyword, `AND`/`OR`/`NOT`, the six comparisons,
   `IN`, `BETWEEN`, `LIKE`, `ANY` (an ordering only over an orderable subject) and arithmetic.
   */
  predicate Covered(e: Expr, schema: Schema) {
    match e
    case Lit(lit) => !lit.NullLit? && !lit.Typed?
    case Col(name) =>
      KeywordConst(name).None? && FindColumn(schema, name).Some? && Basic(FindColumn(schema, name).value.ty)
    case Binary(op, lhs, rhs) =>
      && (op == And || op == Or || IsComparison(op) || IsArithmetic(op))
      && Covered(lhs, schema)
      && Covered(rhs, schema)
    case Unary(op, operand) => op == Not && Covered(operand, schema)
    case InSet(subject, members) => Covered(subject, schema) && AllCovered(members, schema)
    case AnyOf(op, subject, members) =>
      && Covered(subject, schema)
      && AllCovered(members, schema)
      && (op == Eq || op == Ne || (IsComparison(op) && Orderable(CheckExpr(subject, map[], schema, None))))
    case Between(subject, low, high) => Covered(subject, schema) && Covered(low, schema) && Covered(high, schema)
    case LikePat(subject, pattern) => Covered(subject, schema) && Covered(pattern, schema)
    case _ => false
  }

  predicate AllCovered(es: seq<Expr>, schema: Schema) {
    es == [] || (Covered(es[0], schema) && AllCovered(es[1..], schema))
  }

  predicate Orderable(r: Checked) {
    r.Ok? && r.value.Prim? && (r.value.ct.TInt? || r.value.ct.TFloat? || r.value.ct.TText?)
  }

  /** The environment binds every basic column of the schema to a (non-null) value of its type. */
  ghost predicate RowTyped(schema: Schema, env: ValueEnv) {
    forall name :: FindColumn(schema, name).Some? && Basic(FindColumn(schema, name).value.ty) ==>
      name in env && env[name].Data? && HasType(env[name].v, FindColumn(schema, name).value.ty)
  }

  /** A plain value of this type, or one of the two arithmetic faults no static type rules out. */
  predicate Safe(r: Result<Value, EvalError>, ty: Ty) {
    && ty.Prim?
    && Basic(ty.ct)
    && (match r
        case Ok(v) => HasType(v, ty.ct)
        case Err(err) => err == OVERFLOW || err == DIVIDE_BY_ZERO)
  }

  lemma ComparisonSafe(op: Op, a: Value, b: Value, l: ColumnType, r: ColumnType)
    requires IsComparison(op) && Basic(l) && Basic(r) && HasType(a, l) && HasType(b, r)
    requires Comparable(CmpOf(op), l, r)
    ensures CompareOp(op, a, b).Ok?
  {
  }

  lemma ArithmeticSafe(op: Op, a: Value, b: Value, l: ColumnType, r: ColumnType)
    requires IsArithmetic(op) && Basic(l) && Basic(r) && HasType(a, l) && HasType(b, r)
    requires ArithmeticType(op, Prim(l), Prim(r)).Ok?
    ensures Safe(Arithmetic(op, a, b), ArithmeticType(op, Prim(l), Prim(r)).value)
  {
  }

  /** What soundness says of one expression. */
  ghost predicate Sound(e: Expr, schema: Schema, env: ValueEnv, std: Functions, checker: Option<Functions>) {
    var checked := CheckExpr(e, map[], schema, checker);
    checked.Ok? && checked == CheckExpr(e, map[], schema, None) && Safe(EvalData(e, env, std), checked.value)
  }

  /**
   Type soundness: an accepted expression evaluates to a value of its checked type, or fails only with
   overflow or division by zero.
   */
  lemma {:induction false} TypeSoundness(e: Expr, schema: Schema, env: ValueEnv, std: Functions, checker: Option<Functions>)
    requires Covered(e, schema) && RowTyped(schema, env)
    requires CheckExpr(e, map[], schema, checker).Ok?
    ensures Sound(e, schema, env, std, checker)
    decreases e, 2
  {
    if e.Lit? || e.Col? {
      LeafSound(e, schema, env, std, checker);
    } else if e.InSet? || e.AnyOf? {
      TestSound(e, schema, env, std, checker);
    } else {
      OperatorSound(e, schema, env, std, checker);
    }
  }

  lemma LeafSound(e: Expr, schema: Schema, env: ValueEnv, std: Functions, checker: Option<Functions>)
    requires (e.Lit? || e.Col?) && Covered(e, schema) && RowTyped(schema, env)
    ensures Sound(e, schema, env, std, checker)
  {
  }

  lemma {:induction false} TestSound(e: Expr, schema: Schema, env: ValueEnv, std: Functions, checker: Option<Functions>)
    requires (e.InSet? || e.AnyOf?) && Covered(e, schema) && RowTyped(schema, env)
    requires CheckExpr(e, map[], schema, checker).Ok?
    ensures Sound(e, schema, env, std, checker)
    decreases e, 0
  {
    TypeSoundness(e.subject, schema, env, std, checker);
    MembersSound(if e.InSet? then Eq else e.aop, CheckExpr(e.subject, map[], schema, checker).value, EvalData(e.subject, env, std), e.members, schema, env, std, checker);
  }

  lemma {:induction false} OperatorSound(e: Expr, schema: Schema, env: ValueEnv, std: Functions, checker: Option<Functions>)
    requires (e.Binary? || e.Unary? || e.Between? || e.LikePat?) && Covered(e, schema) && RowTyped(schema, env)
    requires CheckExpr(e, map[], schema, checker).Ok?
    ensures Sound(e, schema, env, std, checker)
    decreases e, 1
  {
    if e.Binary? {
      BinarySound(e, schema, env, std, checker);
    } else if e.Between? {
      BetweenSound(e, schema, env, std, checker);
    } else if e.Unary? {
      TypeSoundness(e.operand, schema, env, std, checker);
    } else {
      TypeSoundness(e.subject, schema, env, std, checker);
      TypeSoundness(e.pattern, schema, env, std, checker);
    }
  }

  lemma {:induction false} BinarySound(e: Expr, schema: Schema, env: ValueEnv, std: Functions, checker: Option<Functions>)
    requires e.Binary? && Covered(e, schema) && RowTyped(schema, env)
    requires CheckExpr(e, map[], schema, checker).Ok?
    ensures Sound(e, schema, env, std, checker)
    decreases e, 0
  {
    TypeSoundness(e.lhs, schema, env, std, checker);
    TypeSoundness(e.rhs, schema, env, std, checker);
    BinarySafe(e.op, EvalData(e.lhs, env, std), EvalData(e.rhs, env, std), CheckExpr(e.lhs, map[], schema, checker).value, CheckExpr(e.rhs, map[], schema, checker).value);
  }

  lemma {:induction false} BetweenSound(e: Expr, schema: Schema, env: ValueEnv, std: Functions, checker: Option<Functions>)
    requires e.Between? && Covered(e, schema) && RowTyped(schema, env)
    requires CheckExpr(e, map[], schema, checker).Ok?
    ensures Sound(e, schema, env, std, checker)
    decreases e, 0
  {
    TypeSoundness(e.subject, schema, env, std, checker);
    TypeSoundness(e.low, schema, env, std, checker);
    TypeSoundness(e.high, schema, env, std, checker);
    BetweenSafe(EvalData(e.subject, env, std), EvalData(e.low, env, std), EvalData(e.high, env, std),
                CheckExpr(e.subject, map[], schema, checker).value, CheckExpr(e.low, map[], schema, checker).value, CheckExpr(e.high, map[], schema, checker).value);
  }

  /** A binary operator over safe operands is safe at its checked type. */
  lemma BinarySafe(op: Op, l: DataOutcome, r: DataOutcome, lt: Ty, rt: Ty)
    requires op == And || op == Or || IsComparison(op) || IsArithmetic(op)
    requires Safe(l, lt) && Safe(r, rt) && CheckBinary(op, Ok(lt), Ok(rt)).Ok?
    ensures Safe(ToData(BinaryOver(op, l, r)), CheckBinary(op, Ok(lt), Ok(rt)).value)
  {
    if l.Ok? && r.Ok? {
      if IsComparison(op) {
        ComparisonSafe(op, l.value, r.value, lt.ct, rt.ct);
      } else if IsArithmetic(op) {
        ArithmeticSafe(op, l.value, r.value, lt.ct, rt.ct);
      }
    }
  }

  lemma BetweenSafe(s: DataOutcome, lo: DataOutcome, hi: DataOutcome, st: Ty, lt: Ty, ht: Ty)
    requires Safe(s, st) && Safe(lo, lt) && Safe(hi, ht) && CheckBetween(Ok(st), Ok(lt), Ok(ht)).Ok?
    ensures Safe(ToData(BetweenOver(s, lo, hi)), Prim(TBool))
  {
    if s.Ok? && lo.Ok? && hi.Ok? {
      ComparisonSafe(Ge, s.value, lo.value, st.ct, lt.ct);
      ComparisonSafe(Le, s.value, hi.value, st.ct, ht.ct);
    }
  }

  /** A member accepted as equal-comparable to the subject can be compared with it by `op`. */
  lemma MemberSafe(op: Op, ty: Ty, s: Value, t: Ty, m: Value)
    requires Safe(Ok(s), ty) && Safe(Ok(m), t)
    requires op == Eq || op == Ne || (IsComparison(op) && Orderable(Ok(ty)))
    requires RequireComparable(CmpEq, ty, t).Ok?
    ensures CompareOp(op, s, m).Ok?
  {
    assert Comparable(CmpOf(op), ty.ct, t.ct);
    ComparisonSafe(op, s, m, ty.ct, t.ct);
  }

  lemma {:induction false} MembersSound(op: Op, ty: Ty, s: Result<Value, EvalError>, members: seq<Expr>, schema: Schema, env: ValueEnv, std: Functions, checker: Option<Functions>)
    requires AllCovered(members, schema) && RowTyped(schema, env)
    requires Safe(s, ty)
    requires op == Eq || op == Ne || (IsComparison(op) && Orderable(Ok(ty)))
    requires CheckMembers(ty, members, map[], schema, checker).Ok?
    ensures CheckMembers(ty, members, map[], schema, checker) == CheckMembers(ty, members, map[], schema, None)
    ensures s.Ok? ==> var hit := AnyMember(op, s.value, members, env, std);
                      hit.Ok? || hit.error == OVERFLOW || hit.error == DIVIDE_BY_ZERO
    decreases members, 3
  {
    if members != [] {
      TypeSoundness(members[0], schema, env, std, checker);
      MembersSound(op, ty, s, members[1..], schema, env, std, checker);
      var m := EvalData(members[0], env, std);
      if s.Ok? && m.Ok? {
        MemberSafe(op, ty, s.value, CheckExpr(members[0], map[], schema, checker).value, m.value);
      }
    }
  }

  /**
   The checker's ordering rows are exact on the basic types: it accepts an ordering exactly when the
   evaluator can order every two values of those types.
   */
  lemma OrderingMatrixIsExact(op: CmpOp, l: ColumnType, r: ColumnType)
    requires IsOrdering(op) && Basic(l) && Basic(r)
    ensures Comparable(op, l, r) <==> forall a, b :: HasType(a, l) && HasType(b, r) ==> Compare(a, b).Ok?
  {
    var a, b := Sample(l), Sample(r);
    if !Comparable(op, l, r) {
      assert HasType(a, l) && HasType(b, r) && Compare(a, b).Err?;
    }
  }

  function Sample(ty: ColumnType): (v: Value)
    requires Basic(ty)
    ensures HasType(v, ty)
  {
    match ty
    case TBool => Bool(true)
    case TInt => Int(0)
    case TFloat => Float(0.0)
    case TText => Text("")
    case TBytes => Bytes([])
  }

  /**
   `ANY` checks its members as equals, whatever the operator: what it accepts, an ordering can evaluate for
   all values of the types exactly when the subject's type is ordered, that is, neither Boolean nor bytes.
   */
  lemma AnyOrderingIsSafeExactly(op: Op, l: ColumnType, r: ColumnType)
    requires op == Lt || op == Le || op == Gt || op == Ge
    requires Basic(l) && Basic(r) && RequireComparable(CmpEq, Prim(l), Prim(r)).Ok?
    ensures (forall a, b :: HasType(a, l) && HasType(b, r) ==> CompareOp(op, a, b).Ok?) <==> Orderable(Ok(Prim(l)))
  {
    if Orderable(Ok(Prim(l))) {
      forall a, b | HasType(a, l) && HasType(b, r)
        ensures CompareOp(op, a, b).Ok?
      {
        MemberSafe(op, Prim(l), a, Prim(r), b);
      }
    } else {
      var a, b := Sample(l), Sample(r);
      assert HasType(a, l) && HasType(b, r) && CompareOp(op, a, b).Err?;
    }
  }

  /** `flag < ANY (true)` is accepted, because `ANY` is checked as an equality, and then cannot be evaluated. */
  lemma AnyOrderingOnBoolIsAcceptedAndFails(std: Functions)
    ensures var e := AnyOf(Lt, Lit(BoolLit(false)), [Lit(BoolLit(true))]);
            CheckExpr(e, map[], EMPTY_SCHEMA, Some(std)) == Ok(Prim(TBool)) && Eval(e, map[], std) == Err(Fn(WrongType("lambda")))
  {
    var members := [Lit(BoolLit(true))];
    assert EvalData(members[0], map[], std) == Ok(Bool(true));
    assert CheckMembers(Prim(TBool), members[1..], map[], EMPTY_SCHEMA, Some(std)) == Ok(());
  }

  lemma LiteralEvaluates(lit: Literal, std: Functions)
    ensures EvalData(Lit(lit), map[], std) == Ok(LiteralToValue(lit))
  {
  }

  /** The pattern operator `~` is typed by the checker and unsupported by the evaluator. */
  lemma MatchIsAcceptedAndFails(std: Functions, s: string, p: string)
    ensures var e := Binary(Match, Lit(Str(s)), Lit(Str(p)));
            CheckExpr(e, map[], EMPTY_SCHEMA, Some(std)) == Ok(Prim(TBool)) && Eval(e, map[], std) == Err(UNSUPPORTED_OPERATOR)
  {
    LiteralEvaluates(Str(s), std);
    LiteralEvaluates(Str(p), std);
  }
}
