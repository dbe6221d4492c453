/**
 The pure value evaluator: expressions to values, first-class closures capturing their environment by
 value, and `map`/`filter`/`reduce` over an array. There is no fuel: every evaluation terminates
 because closures come only from a literal or from the environment, so nesting depth of the
 environment and size of the expression fall together (see `Eval`'s contract).
 */
module Lambda {
  import opened Wrappers
  import opened Types
  import opened Ast
  import opened Errors
  import opened Stdlib
  import Text

  /** A value of the evaluator: plain data, or a lambda with the environment it was written in. */
  datatype LambdaValue = Data(v: Value) | Closure(params: seq<string>, body: Expr, captured: ValueEnv)

  type ValueEnv = map<string, LambdaValue>

  type Outcome = Result<LambdaValue, EvalError>

  // ---- Nesting depth of closures: the first half of the termination measure ----

  ghost function MaxOf(s: set<nat>): (m: nat)
    ensures forall x :: x in s ==> x <= m
    ensures s != {} ==> m in s
    ensures s == {} ==> m == 0
  {
    if s == {} then 0
    else
      var x :| x in s;
      var m := MaxOf(s - {x});
      assert s == (s - {x}) + {x};
      if s - {x} == {} || x > m then x else m
  }

  /** How deeply closures are nested inside a value; plain data has depth 0. */
  ghost function Depth(v: LambdaValue): nat {
    match v
    case Data(_) => 0
    case Closure(_, _, captured) => 1 + MaxOf(set k | k in captured :: Depth(captured[k]))
  }

  ghost function EnvDepth(env: ValueEnv): nat {
    MaxOf(set k | k in env :: Depth(env[k]))
  }

  lemma DepthInEnv(env: ValueEnv, name: string)
    requires name in env
    ensures Depth(env[name]) <= EnvDepth(env)
  {
    var depths: set<nat> := set k | k in env :: Depth(env[k]);
    assert Depth(env[name]) in depths;
    assert EnvDepth(env) == MaxOf(depths);
  }

  lemma EnvDepthWithin(env: ValueEnv, bound: nat)
    requires forall k :: k in env ==> Depth(env[k]) <= bound
    ensures EnvDepth(env) <= bound
  {
  }

  lemma BindDataKeepsDepth(env: ValueEnv, params: seq<string>, args: seq<LambdaValue>)
    requires |params| == |args|
    requires forall i :: 0 <= i < |args| ==> args[i].Data?
    ensures EnvDepth(BindAll(env, params, args)) <= EnvDepth(env)
  {
    forall k | k in BindAll(env, params, args)
      ensures Depth(BindAll(env, params, args)[k]) <= EnvDepth(env)
    {
      BindAllLookup(env, params, args, k);
      if k in env {
        DepthInEnv(env, k);
      }
    }
    EnvDepthWithin(BindAll(env, params, args), EnvDepth(env));
  }

  // ---- Environments ----

  /** Binds each parameter to its argument in turn; a repeated parameter keeps the last argument. */
  function BindAll(env: ValueEnv, params: seq<string>, args: seq<LambdaValue>): ValueEnv
    requires |params| == |args|
    decreases |params|
  {
    if params == [] then env else BindAll(env[params[0] := args[0]], params[1..], args[1..])
  }

  lemma {:induction false} BindAllLookup(env: ValueEnv, params: seq<string>, args: seq<LambdaValue>, k: string)
    requires |params| == |args|
    ensures k in BindAll(env, params, args) <==> k in env || k in params
    ensures k in params ==> exists i :: 0 <= i < |params| && params[i] == k && BindAll(env, params, args)[k] == args[i]
                                        && forall j :: i < j < |params| ==> params[j] != k
    ensures k !in params && k in env ==> BindAll(env, params, args)[k] == env[k]
    decreases |params|
  {
    if params != [] {
      BindAllLookup(env[params[0] := args[0]], params[1..], args[1..], k);
      assert params == [params[0]] + params[1..];
      if k in params[1..] {
        var i :| 0 <= i < |params| - 1 && params[1..][i] == k && BindAll(env, params, args)[k] == args[1..][i]
                 && forall j :: i < j < |params| - 1 ==> params[1..][j] != k;
        assert params[i + 1] == k && args[1..][i] == args[i + 1];
        forall j | i + 1 < j < |params|
          ensures params[j] != k
        {
          assert params[1..][j - 1] == params[j];
        }
      } else if params[0] == k {
        forall j | 0 < j < |params|
          ensures params[j] != k
        {
          assert params[1..][j - 1] == params[j];
        }
      }
    }
  }

  function ParamNames(params: seq<Param>): (names: seq<string>)
    ensures |names| == |params|
    ensures forall i :: 0 <= i < |params| ==> names[i] == params[i].name
  {
    seq(|params|, i requires 0 <= i < |params| => params[i].name)
  }

  // ---- Scalars ----

  function IntoData(v: LambdaValue): Result<Value, EvalError> {
    match v
    case Data(d) => Ok(d)
    case Closure(_, _, _) => Err(NotAFunction)
  }

  function IntoClosure(v: LambdaValue): (r: Result<LambdaValue, EvalError>)
    ensures r.Ok? ==> r.value == v && v.Closure?
  {
    match v
    case Data(_) => Err(NotAFunction)
    case Closure(_, _, _) => Ok(v)
  }

  function AsArray(v: Value): Result<seq<Value>, EvalError> {
    match v
    case Array(items) => Ok(items)
    case _ => Err(Fn(WrongType("map/filter/reduce")))
  }

  /** A `u64` magnitude reinterpreted as an `i64`. */
  function WrapToI64(n: U64): I64 {
    if n < 0x8000_0000_0000_0000 then n else n - 0x1_0000_0000_0000_0000
  }

  function LiteralToValue(lit: Literal): Value {
    match lit
    case Str(s) => Text(s)
    case IntLit(n) => Int(n)
    case FloatLit(x) => Float(x)
    case BoolLit(b) => Bool(b)
    case NullLit => Null
    case Size(m, _) => Int(WrapToI64(m))
    case Typed(_, raw) => Text(raw)
    case BytesLit(b) => Bytes(b)
  }

  /** The constant a bare keyword identifier denotes, in any letter case. */
  function KeywordConst(name: string): Option<Value> {
    var lower := Text.Lower(name);
    if lower == "true" then Some(Bool(true))
    else if lower == "false" then Some(Bool(false))
    else if lower == "null" then Some(Null)
    else None
  }

  predicate Truthy(v: Value) {
    v == Bool(true)
  }

  predicate ValuesEqual(a: Value, b: Value) {
    match (a, b)
    case (Int(x), Float(y)) => x as real == y
    case (Float(x), Int(y)) => x == y as real
    case _ => a == b
  }

  datatype Ordering = Less | Same | Greater

  function OrderReal(x: real, y: real): Ordering {
    if x < y then Less else if x == y then Same else Greater
  }

  function Compare(a: Value, b: Value): Result<Ordering, EvalError> {
    match (a, b)
    case (Int(x), Int(y)) => Ok(if x < y then Less else if x == y then Same else Greater)
    case (Float(x), Float(y)) => Ok(OrderReal(x, y))
    case (Int(x), Float(y)) => Ok(OrderReal(x as real, y))
    case (Float(x), Int(y)) => Ok(OrderReal(x, y as real))
    case (Text(x), Text(y)) => Ok(if Text.Before(x, y) then Less else if x == y then Same else Greater)
    case _ => Err(Fn(WrongType("lambda")))
  }

  const UNSUPPORTED_OPERATOR: EvalError := Fn(Domain("lambda", UnsupportedOperator))

  const OVERFLOW: EvalError := Fn(Domain("arithmetic", Overflow))

  const DIVIDE_BY_ZERO: EvalError := Fn(Domain("arithmetic", DivideByZero))

  /** One of the six comparisons on two values; any other operator is unsupported. */
  function CompareOp(op: Op, a: Value, b: Value): Result<bool, EvalError> {
    match op
    case Eq => Ok(ValuesEqual(a, b))
    case Ne => Ok(!ValuesEqual(a, b))
    case Lt => var o :- Compare(a, b); Ok(o == Less)
    case Le => var o :- Compare(a, b); Ok(o != Greater)
    case Gt => var o :- Compare(a, b); Ok(o == Greater)
    case Ge => var o :- Compare(a, b); Ok(o != Less)
    case _ => Err(UNSUPPORTED_OPERATOR)
  }

  /** The `i64` result of exact arithmetic, or overflow. */
  function Checked(n: int): Result<Value, EvalError> {
    if -0x8000_0000_0000_0000 <= n < 0x8000_0000_0000_0000 then Ok(Int(n)) else Err(OVERFLOW)
  }

  function IntArithmetic(op: Op, x: int, y: int): Result<Value, EvalError> {
    match op
    case Add => Checked(x + y)
    case Sub => Checked(x - y)
    case Mul => Checked(x * y)
    case Div => Err(Fn(Domain("arithmetic", IntegerDivision)))
    case _ => Err(Fn(WrongType("arithmetic")))
  }

  function FloatArithmetic(op: Op, x: real, y: real): Result<Value, EvalError> {
    match op
    case Add => Ok(Float(x + y))
    case Sub => Ok(Float(x - y))
    case Mul => Ok(Float(x * y))
    case Div => if y == 0.0 then Err(DIVIDE_BY_ZERO) else Ok(Float(x / y))
    case _ => Err(Fn(WrongType("arithmetic")))
  }

  /** Both operands of one numeric kind; integers never divide. */
  function Arithmetic(op: Op, a: Value, b: Value): Result<Value, EvalError> {
    if a.Int? && b.Int? then IntArithmetic(op, a.n, b.n)
    else if a.Float? && b.Float? then FloatArithmetic(op, a.x, b.x)
    else Err(Fn(WrongType("arithmetic")))
  }

  /** The anchored `LIKE` matcher over UTF-8 bytes: `%` is any run, `_` any single byte. */
  predicate LikeInner(s: seq<Byte>, p: seq<Byte>)
    decreases p
  {
    if p == [] then s == []
    else if p[0] == '%' as Byte then exists i | 0 <= i <= |s| :: LikeInner(s[i..], p[1..])
    else if p[0] == '_' as Byte then s != [] && LikeInner(s[1..], p[1..])
    else s != [] && s[0] == p[0] && LikeInner(s[1..], p[1..])
  }

  function LikeMatch(subject: Value, pattern: Value): bool {
    match (subject, pattern)
    case (Text(s), Text(p)) => LikeInner(Text.Utf8(s), Text.Utf8(p))
    case _ => false
  }

  /** The value of the first field with this name. */
  function GetField(fields: seq<Field>, name: string): Option<Value> {
    if fields == [] then None
    else if fields[0].name == name then Some(fields[0].value)
    else GetField(fields[1..], name)
  }

  /** Walks named struct fields; a missing field, or a step into a non-struct, is null. */
  function WalkFields(v: Value, segs: seq<string>): Value
    decreases segs
  {
    if segs == [] then v
    else
      var next := match v
        case Struct(fields) => (match GetField(fields, segs[0]) case Some(x) => x case None => Null)
        case _ => Null;
      WalkFields(next, segs[1..])
  }

  function EvalPath(segs: seq<string>, env: ValueEnv): Outcome {
    if segs == [] then Err(Fn(Domain("lambda", EmptyPath)))
    else if segs[0] !in env then Err(Resolve(UnknownBinding(segs[0])))
    else
      match env[segs[0]]
      case Data(v) => Ok(Data(WalkFields(v, segs[1..])))
      case Closure(_, _, _) => Err(NotAFunction)
  }

  // ---- Operators over the outcomes of their operands: the leftmost error wins ----

  type DataOutcome = Result<Value, EvalError>

  /** A position that needs plain data refuses a closure. */
  function ToData(r: Outcome): DataOutcome {
    var v :- r;
    IntoData(v)
  }

  function AsData(r: DataOutcome): Outcome {
    var v :- r;
    Ok(Data(v))
  }

  function AsBool(r: Result<bool, EvalError>): Outcome {
    var b :- r;
    Ok(Data(Bool(b)))
  }

  function AsItems(r: Result<seq<Value>, EvalError>): Outcome {
    var items :- r;
    Ok(Data(Array(items)))
  }

  /** `AND`/`OR` look at the right operand only when the left one has not decided. */
  function Logic(op: Op, l: DataOutcome, r: DataOutcome): Outcome {
    var a :- l;
    if Truthy(a) == (op == Or) then Ok(Data(Bool(op == Or)))
    else
      var b :- r;
      Ok(Data(Bool(Truthy(b))))
  }

  function Operate(op: Op, l: DataOutcome, r: DataOutcome): Outcome {
    var a :- l;
    var b :- r;
    if op == Add || op == Sub || op == Mul || op == Div then AsData(Arithmetic(op, a, b)) else AsBool(CompareOp(op, a, b))
  }

  function BinaryOver(op: Op, l: DataOutcome, r: DataOutcome): Outcome {
    if op == And || op == Or then Logic(op, l, r) else Operate(op, l, r)
  }

  function UnaryOver(op: Op, operand: DataOutcome): Outcome {
    if op != Not then Err(Fn(Domain("lambda", UnsupportedExpression)))
    else
      var v :- operand;
      Ok(Data(Bool(!Truthy(v))))
  }

  function LikeOver(subject: DataOutcome, pattern: DataOutcome): Outcome {
    var s :- subject;
    var p :- pattern;
    Ok(Data(Bool(LikeMatch(s, p))))
  }

  /** `subject >= low`, and only then `subject <= high`. */
  function BetweenOver(subject: DataOutcome, low: DataOutcome, high: DataOutcome): Outcome {
    var s :- subject;
    var lo :- low;
    var hi :- high;
    var above :- CompareOp(Ge, s, lo);
    if !above then Ok(Data(Bool(false))) else AsBool(CompareOp(Le, s, hi))
  }

  // ---- The evaluator ----

  /**
   Evaluates `e` under `env`. A closure in the result is the very value bound to a name in `env`, or
   `e` is a lambda literal capturing `env`: functions never enter data.
   */
  function Eval(e: Expr, env: ValueEnv, std: Functions): (r: Outcome)
    ensures r.Ok? && r.value.Closure? ==>
              || (e.Col? && e.name in env && env[e.name] == r.value)
              || (e.Lambda? && r.value == Closure(ParamNames(e.params), e.body, env))
    decreases EnvDepth(env), e, 0
  {
    match e
    case Lit(lit) => Ok(Data(LiteralToValue(lit)))
    case Col(name) =>
      if name in env then Ok(env[name])
      else
        (match KeywordConst(name)
         case Some(v) => Ok(Data(v))
         case None => Err(Resolve(UnknownBinding(name))))
    case FieldPath(segs) => EvalPath(segs, env)
    case Lambda(params, body) => Ok(Closure(ParamNames(params), body, env))
    case Call(name, args) =>
      (match std.builtin(name)
       case None => Err(Fn(UnknownFunction(name)))
       case Some(b) =>
         if !b.Sig().AcceptsArity(|args|) then Err(Fn(Arity(name, b.Sig().minArgs, |args|)))
         else
           match b
           case HigherOrder(kind) => EvalHigherOrder(kind, args, env, std)
           case Scalar(_, f) =>
             var values :- EvalAll(args, env, std);
             (match f(values)
              case Ok(v) => Ok(Data(v))
              case Err(err) => Err(Fn(err)))
           case _ => Err(Fn(Domain(name, NotCallable))))
    case ArrayOf(elems) => AsItems(EvalAll(elems, env, std))
    case StructOf(inits) =>
      var fields :- EvalFields(inits, env, std);
      Ok(Data(Struct(fields)))
    case Binary(op, lhs, rhs) => BinaryOver(op, EvalData(lhs, env, std), EvalData(rhs, env, std))
    case Unary(op, operand) => UnaryOver(op, EvalData(operand, env, std))
    case LikePat(subject, pattern) => LikeOver(EvalData(subject, env, std), EvalData(pattern, env, std))
    case InSet(subject, members) =>
      var s :- EvalData(subject, env, std);
      AsBool(AnyMember(Eq, s, members, env, std))
    case Between(subject, low, high) =>
      BetweenOver(EvalData(subject, env, std), EvalData(low, env, std), EvalData(high, env, std))
    case AnyOf(op, subject, members) =>
      var s :- EvalData(subject, env, std);
      AsBool(AnyMember(op, s, members, env, std))
  }

  function EvalData(e: Expr, env: ValueEnv, std: Functions): (r: Result<Value, EvalError>)
    decreases EnvDepth(env), e, 1
  {
    ToData(Eval(e, env, std))
  }

  /** Evaluates expressions left to right to plain values, stopping at the first error. */
  function EvalAll(es: seq<Expr>, env: ValueEnv, std: Functions): (r: Result<seq<Value>, EvalError>)
    ensures r.Ok? ==> |r.value| == |es|
    decreases EnvDepth(env), es, 2
  {
    if es == [] then Ok([])
    else
      var v :- EvalData(es[0], env, std);
      var rest :- EvalAll(es[1..], env, std);
      Ok([v] + rest)
  }

  function EvalFields(inits: seq<FieldInit>, env: ValueEnv, std: Functions): (r: Result<seq<Field>, EvalError>)
    ensures r.Ok? ==> |r.value| == |inits|
    decreases EnvDepth(env), inits, 2
  {
    if inits == [] then Ok([])
    else
      var v :- EvalData(inits[0].init, env, std);
      var rest :- EvalFields(inits[1..], env, std);
      Ok([Field(inits[0].name, v)] + rest)
  }

  /** Whether the comparison holds against some member; members after the first success stay unevaluated. */
  function AnyMember(op: Op, subject: Value, members: seq<Expr>, env: ValueEnv, std: Functions): Result<bool, EvalError>
    decreases EnvDepth(env), members, 2
  {
    if members == [] then Ok(false)
    else
      var m :- EvalData(members[0], env, std);
      var hit :- CompareOp(op, subject, m);
      if hit then Ok(true) else AnyMember(op, subject, members[1..], env, std)
  }

  /** Binds each parameter of the closure in a child of its captured environment and evaluates its body. */
  function Apply(c: LambdaValue, args: seq<LambdaValue>, std: Functions): Outcome
    requires c.Closure?
    decreases if |args| == |c.params| then EnvDepth(BindAll(c.captured, c.params, args)) else 0, c.body, 3
  {
    if |args| != |c.params| then Err(LambdaArity(|c.params|, |args|))
    else Eval(c.body, BindAll(c.captured, c.params, args), std)
  }

  function ApplyData(c: LambdaValue, args: seq<Value>, std: Functions): Result<Value, EvalError>
    requires c.Closure?
    decreases EnvDepth(c.captured), c.body, 4
  {
    var wrapped := seq(|args|, i requires 0 <= i < |args| => Data(args[i]));
    if |args| == |c.params| then
      BindDataKeepsDepth(c.captured, c.params, wrapped);
      var v :- Apply(c, wrapped, std);
      IntoData(v)
    else
      Err(LambdaArity(|c.params|, |args|))
  }

  function EvalHigherOrder(kind: HigherOrderKind, args: seq<Expr>, env: ValueEnv, std: Functions): (r: Outcome)
    requires HigherOrder(kind).Sig().AcceptsArity(|args|)
    ensures r.Ok? ==> r.value.Data?
    decreases EnvDepth(env), args, 2
  {
    var coll :- EvalData(args[0], env, std);
    var f :- Eval(args[1], env, std);
    var c :- IntoClosure(f);
    ClosureFallsBelow(c, args[1], env);
    var items :- AsArray(coll);
    RunOver(kind, c, items, if |args| == 3 then Some(EvalData(args[2], env, std)) else None, std)
  }

  /** The closure over the items; a reduction starts from its seed, or from the first item. */
  function RunOver(kind: HigherOrderKind, c: LambdaValue, items: seq<Value>, seed: Option<DataOutcome>, std: Functions): (r: Outcome)
    requires c.Closure?
    ensures r.Ok? ==> r.value.Data?
    decreases EnvDepth(c.captured), c.body, 6
  {
    match kind
    case MapKind => AsItems(MapItems(c, items, std))
    case FilterKind => AsItems(FilterItems(c, items, std))
    case ReduceKind =>
      match seed
      case Some(init) =>
        var start :- init;
        AsData(FoldItems(c, start, items, std))
      case None => if items == [] then Ok(Data(Null)) else AsData(FoldItems(c, items[0], items[1..], std))
  }

  /** The closure an argument evaluates to is captured strictly deeper, or is that argument's own literal. */
  lemma ClosureFallsBelow(c: LambdaValue, arg: Expr, env: ValueEnv)
    requires c.Closure?
    requires || (arg.Col? && arg.name in env && env[arg.name] == c)
             || (arg.Lambda? && c == Closure(ParamNames(arg.params), arg.body, env))
    ensures EnvDepth(c.captured) < EnvDepth(env) || (c.captured == env && arg.Lambda? && c.body == arg.body)
  {
    if arg.Col? {
      DepthInEnv(env, arg.name);
      assert Depth(c) == 1 + EnvDepth(c.captured);
    }
  }

  function MapItems(c: LambdaValue, items: seq<Value>, std: Functions): (r: Result<seq<Value>, EvalError>)
    requires c.Closure?
    decreases EnvDepth(c.captured), c.body, 5, |items|
  {
    if items == [] then Ok([])
    else
      var v :- ApplyData(c, [items[0]], std);
      var rest :- MapItems(c, items[1..], std);
      Ok([v] + rest)
  }

  function FilterItems(c: LambdaValue, items: seq<Value>, std: Functions): (r: Result<seq<Value>, EvalError>)
    requires c.Closure?
    decreases EnvDepth(c.captured), c.body, 5, |items|
  {
    if items == [] then Ok([])
    else
      var keep :- ApplyData(c, [items[0]], std);
      var rest :- FilterItems(c, items[1..], std);
      Ok(if Truthy(keep) then [items[0]] + rest else rest)
  }

  function FoldItems(c: LambdaValue, acc: Value, items: seq<Value>, std: Functions): (r: Result<Value, EvalError>)
    requires c.Closure?
    decreases EnvDepth(c.captured), c.body, 5, |items|
  {
    if items == [] then Ok(acc)
    else
      var next :- ApplyData(c, [acc, items[0]], std);
      FoldItems(c, next, items[1..], std)
  }
}
