/** The evaluator as the program runs it, loop by loop, proved to compute `Lambda.Eval`. */
module LambdaRun {
  import opened Wrappers
  import opened Types
  import opened Ast
  import opened Errors
  import opened Stdlib
  import opened Lambda

  method EvalExpr(e: Expr, env: ValueEnv, std: Functions) returns (r: Outcome)
    ensures r == Eval(e, env, std)
    decreases EnvDepth(env), e, 1
  {
    match e
    case Lit(lit) => return Ok(Data(LiteralToValue(lit)));
    case Col(_) => return Eval(e, env, std);
    case FieldPath(segs) => r := NavigatePath(segs, env);
    case Lambda(params, body) => return Ok(Closure(ParamNames(params), body, env));
    case Call(name, args) => r := CallBuiltin(e, env, std);
    case ArrayOf(elems) =>
      var values :- CollectValues(elems, env, std);
      return Ok(Data(Array(values)));
    case StructOf(inits) =>
      var fields :- CollectFields(inits, env, std);
      return Ok(Data(Struct(fields)));
    case Binary(op, lhs, rhs) => r := EvalBinary(op, lhs, rhs, env, std);
    case Unary(op, operand) =>
      if op != Not {
        return Err(Fn(Domain("lambda", UnsupportedExpression)));
      }
      var v :- EvalToData(operand, env, std);
      return Ok(Data(Bool(!Truthy(v))));
    case LikePat(subject, pattern) =>
      var s :- EvalToData(subject, env, std);
      var p :- EvalToData(pattern, env, std);
      return Ok(Data(Bool(LikeMatch(s, p))));
    case InSet(subject, members) =>
      var s :- EvalToData(subject, env, std);
      var found :- SearchMembers(Eq, s, members, env, std);
      return Ok(Data(Bool(found)));
    case Between(subject, low, high) => r := EvalBetween(subject, low, high, env, std);
    case AnyOf(op, subject, members) =>
      var s :- EvalToData(subject, env, std);
      var satisfied :- SearchMembers(op, s, members, env, std);
      return Ok(Data(Bool(satisfied)));
  }

  method EvalBinary(op: Op, lhs: Expr, rhs: Expr, env: ValueEnv, std: Functions) returns (r: Outcome)
    ensures r == BinaryOver(op, EvalData(lhs, env, std), EvalData(rhs, env, std))
    decreases EnvDepth(env), Binary(op, lhs, rhs), 0
  {
    LeftDecides(op, EvalData(lhs, env, std), EvalData(rhs, env, std));
    var l := EvalToData(lhs, env, std);
    if l.Err? {
      return Err(l.error);
    }
    if ShortCircuits(op, l.value) {
      return Ok(Data(Bool(Truthy(l.value))));
    }
    var right := EvalToData(rhs, env, std);
    if right.Err? {
      return Err(right.error);
    }
    r := OperateOnValues(op, l.value, right.value);
  }

  predicate ShortCircuits(op: Op, l: Value) {
    (op == And && !Truthy(l)) || (op == Or && Truthy(l))
  }

  lemma LeftDecides(op: Op, l: DataOutcome, r: DataOutcome)
    ensures l.Err? ==> BinaryOver(op, l, r) == Err(l.error)
    ensures l.Ok? && ShortCircuits(op, l.value) ==> BinaryOver(op, l, r) == Ok(Data(Bool(Truthy(l.value))))
    ensures l.Ok? && !ShortCircuits(op, l.value) && r.Err? ==> BinaryOver(op, l, r) == Err(r.error)
  {
  }

  method OperateOnValues(op: Op, l: Value, right: Value) returns (r: Outcome)
    requires !ShortCircuits(op, l)
    ensures r == BinaryOver(op, Ok(l), Ok(right))
  {
    if op == And || op == Or {
      return Ok(Data(Bool(Truthy(right))));
    } else if op in {Add, Sub, Mul, Div} {
      var v :- Arithmetic(op, l, right);
      return Ok(Data(v));
    }
    var holds :- CompareOp(op, l, right);
    return Ok(Data(Bool(holds)));
  }

  lemma LeftmostErrorWins(s: DataOutcome, lo: DataOutcome, hi: DataOutcome)
    ensures s.Err? ==> BetweenOver(s, lo, hi) == Err(s.error)
    ensures s.Ok? && lo.Err? ==> BetweenOver(s, lo, hi) == Err(lo.error)
    ensures s.Ok? && lo.Ok? && hi.Err? ==> BetweenOver(s, lo, hi) == Err(hi.error)
  {
  }

  method EvalBetween(subject: Expr, low: Expr, high: Expr, env: ValueEnv, std: Functions) returns (r: Outcome)
    ensures r == BetweenOver(EvalData(subject, env, std), EvalData(low, env, std), EvalData(high, env, std))
    decreases EnvDepth(env), Between(subject, low, high), 0
  {
    LeftmostErrorWins(EvalData(subject, env, std), EvalData(low, env, std), EvalData(high, env, std));
    var s := EvalToData(subject, env, std);
    if s.Err? {
      return Err(s.error);
    }
    var lo := EvalToData(low, env, std);
    if lo.Err? {
      return Err(lo.error);
    }
    var hi := EvalToData(high, env, std);
    if hi.Err? {
      return Err(hi.error);
    }
    r := BetweenValues(s.value, lo.value, hi.value);
  }

  method BetweenValues(s: Value, lo: Value, hi: Value) returns (r: Outcome)
    ensures r == BetweenOver(Ok(s), Ok(lo), Ok(hi))
  {
    var above :- CompareOp(Ge, s, lo);
    if !above {
      return Ok(Data(Bool(false)));
    }
    var below :- CompareOp(Le, s, hi);
    return Ok(Data(Bool(below)));
  }

  /** `done` followed by what is still to come, unless that fails. */
  ghost function Prepend<T>(done: seq<T>, rest: Result<seq<T>, EvalError>): Result<seq<T>, EvalError> {
    match rest
    case Ok(more) => Ok(done + more)
    case Err(e) => Err(e)
  }

  lemma PrependNothing<T>(r: Result<seq<T>, EvalError>)
    ensures Prepend([], r) == r
  {
    if r.Ok? {
      assert [] + r.value == r.value;
    }
  }

  lemma PrependToNothing<T>(done: seq<T>)
    ensures Prepend(done, Ok([])) == Ok(done)
  {
    assert done + [] == done;
  }

  lemma PrependOne<T>(done: seq<T>, v: T, rest: Result<seq<T>, EvalError>)
    ensures Prepend(done + [v], rest) == Prepend(done, Prepend([v], rest))
  {
    if rest.Ok? {
      assert done + [v] + rest.value == done + ([v] + rest.value);
    }
  }

  method EvalToData(e: Expr, env: ValueEnv, std: Functions) returns (r: Result<Value, EvalError>)
    ensures r == EvalData(e, env, std)
    decreases EnvDepth(env), e, 2
  {
    var v :- EvalExpr(e, env, std);
    return IntoData(v);
  }

  method CollectValues(es: seq<Expr>, env: ValueEnv, std: Functions) returns (r: Result<seq<Value>, EvalError>)
    ensures r == EvalAll(es, env, std)
    decreases EnvDepth(env), es, 2
  {
    var out := [];
    PrependNothing(EvalAll(es, env, std));
    for i := 0 to |es|
      invariant EvalAll(es, env, std) == Prepend(out, EvalAll(es[i..], env, std))
    {
      var v :- EvalToData(es[i], env, std);
      assert es[i..][1..] == es[i + 1..];
      PrependOne(out, v, EvalAll(es[i + 1..], env, std));
      out := out + [v];
    }
    PrependToNothing(out);
    return Ok(out);
  }

  method CollectFields(inits: seq<FieldInit>, env: ValueEnv, std: Functions) returns (r: Result<seq<Field>, EvalError>)
    ensures r == EvalFields(inits, env, std)
    decreases EnvDepth(env), inits, 2
  {
    var out := [];
    PrependNothing(EvalFields(inits, env, std));
    for i := 0 to |inits|
      invariant EvalFields(inits, env, std) == Prepend(out, EvalFields(inits[i..], env, std))
    {
      var v :- EvalToData(inits[i].init, env, std);
      assert inits[i..][1..] == inits[i + 1..];
      PrependOne(out, Field(inits[i].name, v), EvalFields(inits[i + 1..], env, std));
      out := out + [Field(inits[i].name, v)];
    }
    PrependToNothing(out);
    return Ok(out);
  }

  method SearchMembers(op: Op, subject: Value, members: seq<Expr>, env: ValueEnv, std: Functions)
      returns (r: Result<bool, EvalError>)
    ensures r == AnyMember(op, subject, members, env, std)
    decreases EnvDepth(env), members, 2
  {
    for i := 0 to |members|
      invariant AnyMember(op, subject, members, env, std) == AnyMember(op, subject, members[i..], env, std)
    {
      var m :- EvalToData(members[i], env, std);
      assert members[i..][1..] == members[i + 1..];
      var hit :- CompareOp(op, subject, m);
      if hit {
        return Ok(true);
      }
    }
    return Ok(false);
  }

  method NavigatePath(segs: seq<string>, env: ValueEnv) returns (r: Outcome)
    ensures r == EvalPath(segs, env)
  {
    if segs == [] || segs[0] !in env || env[segs[0]].Closure? {
      return EvalPath(segs, env);
    }
    var value := env[segs[0]].v;
    for i := 1 to |segs|
      invariant WalkFields(env[segs[0]].v, segs[1..]) == WalkFields(value, segs[i..])
    {
      assert segs[i..][1..] == segs[i + 1..];
      var field := None;
      if value.Struct? {
        field := GetField(value.fields, segs[i]);
      }
      value := match field case Some(x) => x case None => Null;
    }
    return Ok(Data(value));
  }

  method CallBuiltin(e: Expr, env: ValueEnv, std: Functions) returns (r: Outcome)
    requires e.Call?
    ensures r == Eval(e, env, std)
    decreases EnvDepth(env), e.args, 4
  {
    match std.builtin(e.fname)
    case None => return Err(Fn(UnknownFunction(e.fname)));
    case Some(b) =>
      if !b.Sig().AcceptsArity(|e.args|) {
        return Err(Fn(Arity(e.fname, b.Sig().minArgs, |e.args|)));
      }
      match b
      case HigherOrder(kind) => r := ApplyHigherOrder(kind, e.args, env, std);
      case Scalar(_, f) =>
        var values :- CollectValues(e.args, env, std);
        var result := f(values);
        return if result.Ok? then Ok(Data(result.value)) else Err(Fn(result.error));
      case _ => return Err(Fn(Domain(e.fname, NotCallable)));
  }

  method ApplyHigherOrder(kind: HigherOrderKind, args: seq<Expr>, env: ValueEnv, std: Functions) returns (r: Outcome)
    requires HigherOrder(kind).Sig().AcceptsArity(|args|)
    ensures r == EvalHigherOrder(kind, args, env, std)
    decreases EnvDepth(env), args, 3
  {
    var coll :- EvalToData(args[0], env, std);
    var f :- EvalExpr(args[1], env, std);
    var c :- IntoClosure(f);
    ClosureFallsBelow(c, args[1], env);
    var items :- AsArray(coll);
    match kind
    case MapKind =>
      var out := MapLoop(c, items, std);
      return AsItems(out);
    case FilterKind =>
      var out := FilterLoop(c, items, std);
      return AsItems(out);
    case ReduceKind =>
      var acc, start := Null, 0;
      if |args| == 3 {
        acc :- EvalToData(args[2], env, std);
      } else if items == [] {
        return Ok(Data(Null));
      } else {
        acc, start := items[0], 1;
      }
      var total := ReduceLoop(c, acc, items[start..], std);
      return AsData(total);
  }

  method MapLoop(c: LambdaValue, items: seq<Value>, std: Functions) returns (r: Result<seq<Value>, EvalError>)
    requires c.Closure?
    ensures r == MapItems(c, items, std)
    decreases EnvDepth(c.captured), c.body, 6
  {
    var out := [];
    PrependNothing(MapItems(c, items, std));
    for i := 0 to |items|
      invariant MapItems(c, items, std) == Prepend(out, MapItems(c, items[i..], std))
    {
      var v :- ApplyClosure(c, [items[i]], std);
      assert items[i..][1..] == items[i + 1..];
      PrependOne(out, v, MapItems(c, items[i + 1..], std));
      out := out + [v];
    }
    PrependToNothing(out);
    return Ok(out);
  }

  method FilterLoop(c: LambdaValue, items: seq<Value>, std: Functions) returns (r: Result<seq<Value>, EvalError>)
    requires c.Closure?
    ensures r == FilterItems(c, items, std)
    decreases EnvDepth(c.captured), c.body, 6
  {
    var out := [];
    PrependNothing(FilterItems(c, items, std));
    for i := 0 to |items|
      invariant FilterItems(c, items, std) == Prepend(out, FilterItems(c, items[i..], std))
    {
      var keep :- ApplyClosure(c, [items[i]], std);
      assert items[i..][1..] == items[i + 1..];
      if Truthy(keep) {
        PrependOne(out, items[i], FilterItems(c, items[i + 1..], std));
        out := out + [items[i]];
      }
    }
    PrependToNothing(out);
    return Ok(out);
  }

  method ReduceLoop(c: LambdaValue, start: Value, items: seq<Value>, std: Functions) returns (r: Result<Value, EvalError>)
    requires c.Closure?
    ensures r == FoldItems(c, start, items, std)
    decreases EnvDepth(c.captured), c.body, 6
  {
    var acc := start;
    for i := 0 to |items|
      invariant FoldItems(c, start, items, std) == FoldItems(c, acc, items[i..], std)
    {
      assert items[i..][1..] == items[i + 1..];
      acc :- ApplyClosure(c, [acc, items[i]], std);
    }
    return Ok(acc);
  }

  /** Application: parameters are bound one at a time in a child of the captured environment. */
  method ApplyClosure(c: LambdaValue, args: seq<Value>, std: Functions) returns (r: Result<Value, EvalError>)
    requires c.Closure?
    ensures r == ApplyData(c, args, std)
    decreases EnvDepth(c.captured), c.body, 5
  {
    if |args| != |c.params| {
      return Err(LambdaArity(|c.params|, |args|));
    }
    ghost var wrapped := seq(|args|, i requires 0 <= i < |args| => Data(args[i]));
    BindDataKeepsDepth(c.captured, c.params, wrapped);
    var env := c.captured;
    for i := 0 to |args|
      invariant BindAll(c.captured, c.params, wrapped) == BindAll(env, c.params[i..], wrapped[i..])
    {
      assert c.params[i..][1..] == c.params[i + 1..] && wrapped[i..][1..] == wrapped[i + 1..];
      env := env[c.params[i] := Data(args[i])];
    }
    r := EvalToData(c.body, env, std);
  }
}
