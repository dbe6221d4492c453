/**
 Lexical scoping of the evaluator: an expression's outcome depends only on the names free in it. The
 relation on closures is carried through captured environments, so it survives `map`, `filter`,
 `reduce` and application.
 */
module LambdaScope {
  import opened Wrappers
  import opened Types
  import opened Ast
  import opened Errors
  import opened Stdlib
  import opened Lambda

  // ---- Free names ----

  ghost function FreeNames(e: Expr): set<string> {
    match e
    case Lit(_) => {}
    case Col(name) => {name}
    case FieldPath(segs) => if segs == [] then {} else {segs[0]}
    case Call(_, args) => FreeInAll(args)
    case Binary(_, lhs, rhs) => FreeNames(lhs) + FreeNames(rhs)
    case Unary(_, operand) => FreeNames(operand)
    case InSet(subject, members) => FreeNames(subject) + FreeInAll(members)
    case Between(subject, low, high) => FreeNames(subject) + FreeNames(low) + FreeNames(high)
    case LikePat(subject, pattern) => FreeNames(subject) + FreeNames(pattern)
    case AnyOf(_, subject, members) => FreeNames(subject) + FreeInAll(members)
    case Lambda(params, body) => FreeNames(body) - (set n | n in ParamNames(params))
    case ArrayOf(elems) => FreeInAll(elems)
    case StructOf(inits) => FreeInInits(inits)
  }

  ghost function FreeInAll(es: seq<Expr>): set<string> {
    if es == [] then {} else FreeNames(es[0]) + FreeInAll(es[1..])
  }

  ghost function FreeInInits(inits: seq<FieldInit>): set<string> {
    if inits == [] then {} else FreeNames(inits[0].init) + FreeInInits(inits[1..])
  }

  /** The names a closure can still look up in its captured environment. */
  ghost function Needed(params: seq<string>, body: Expr): set<string> {
    FreeNames(body) - (set n | n in params)
  }

  // ---- The relation ----

  /** Same data; or closures over the same code whose captured environments agree on the needed names. */
  ghost predicate Alike(v: LambdaValue, w: LambdaValue)
    decreases v
  {
    match (v, w)
    case (Data(a), Data(b)) => a == b
    case (Closure(ps, body, env), Closure(qs, other, env')) =>
      && ps == qs
      && body == other
      && forall x :: x in Needed(ps, body) ==> (x in env <==> x in env') && (x in env ==> Alike(env[x], env'[x]))
    case _ => false
  }

  /** The two environments agree on `names`: each is bound in both or in neither, to alike values. */
  ghost predicate AgreeOn(names: set<string>, env: ValueEnv, env': ValueEnv) {
    forall x :: x in names ==> (x in env <==> x in env') && (x in env ==> Alike(env[x], env'[x]))
  }

  /** The same error, or alike values. */
  ghost predicate SameOutcome(r: Outcome, r': Outcome) {
    match (r, r')
    case (Ok(v), Ok(w)) => Alike(v, w)
    case (Err(a), Err(b)) => a == b
    case _ => false
  }

  lemma {:induction false} FreeInElement(es: seq<Expr>, i: nat)
    requires i < |es|
    ensures FreeNames(es[i]) <= FreeInAll(es)
  {
    if i > 0 {
      FreeInElement(es[1..], i - 1);
    }
  }

  lemma AgreeAfterBinding(c: LambdaValue, d: LambdaValue, args: seq<LambdaValue>, args': seq<LambdaValue>)
    requires c.Closure? && d.Closure? && Alike(c, d)
    requires |args| == |args'| == |c.params|
    requires forall i :: 0 <= i < |args| ==> Alike(args[i], args'[i])
    ensures AgreeOn(FreeNames(c.body), BindAll(c.captured, c.params, args), BindAll(d.captured, d.params, args'))
  {
    var env, env' := BindAll(c.captured, c.params, args), BindAll(d.captured, d.params, args');
    forall x | x in FreeNames(c.body)
      ensures (x in env <==> x in env') && (x in env ==> Alike(env[x], env'[x]))
    {
      BindAllLookup(c.captured, c.params, args, x);
      BindAllLookup(d.captured, d.params, args', x);
      if x !in c.params {
        assert x in Needed(c.params, c.body);
      }
    }
  }

  // ---- The theorem ----

  /**
   If two environments agree on the names free in `e`, evaluation gives the same error, the same data,
   or closures that behave alike.
   */
  lemma {:induction false} LexicalScoping(e: Expr, env: ValueEnv, env': ValueEnv, std: Functions)
    requires AgreeOn(FreeNames(e), env, env')
    ensures SameOutcome(Eval(e, env, std), Eval(e, env', std))
    decreases EnvDepth(env), e, 1
  {
    match e
    case Lit(_) =>
    case Col(_) =>
    case FieldPath(_) =>
    case Lambda(params, body) => assert Needed(ParamNames(params), body) == FreeNames(e);
    case Call(_, _) => CallScoping(e, env, env', std);
    case ArrayOf(elems) => AllScoping(elems, env, env', std);
    case StructOf(inits) => FieldsScoping(inits, env, env', std);
    case Binary(_, _, _) => OperandsScoping(e, env, env', std);
    case Unary(_, operand) => DataScoping(operand, env, env', std);
    case LikePat(_, _) => OperandsScoping(e, env, env', std);
    case InSet(_, _) => TestScoping(e, env, env', std);
    case Between(_, _, _) => OperandsScoping(e, env, env', std);
    case AnyOf(_, _, _) => TestScoping(e, env, env', std);
  }

  lemma {:induction false} CallScoping(e: Expr, env: ValueEnv, env': ValueEnv, std: Functions)
    requires e.Call? && AgreeOn(FreeNames(e), env, env')
    ensures SameOutcome(Eval(e, env, std), Eval(e, env', std))
    decreases EnvDepth(env), e, 0
  {
    var b := std.builtin(e.fname);
    if b.Some? && b.value.Sig().AcceptsArity(|e.args|) {
      if b.value.HigherOrder? {
        HigherOrderScoping(b.value.kind, e.args, env, env', std);
      } else if b.value.Scalar? {
        AllScoping(e.args, env, env', std);
      }
    }
  }

  lemma {:induction false} OperandsScoping(e: Expr, env: ValueEnv, env': ValueEnv, std: Functions)
    requires (e.Binary? || e.LikePat? || e.Between?) && AgreeOn(FreeNames(e), env, env')
    ensures SameOutcome(Eval(e, env, std), Eval(e, env', std))
    decreases EnvDepth(env), e, 0
  {
    match e
    case Binary(_, lhs, rhs) =>
      DataScoping(lhs, env, env', std);
      DataScoping(rhs, env, env', std);
    case LikePat(subject, pattern) =>
      DataScoping(subject, env, env', std);
      DataScoping(pattern, env, env', std);
    case Between(subject, low, high) =>
      DataScoping(subject, env, env', std);
      DataScoping(low, env, env', std);
      DataScoping(high, env, env', std);
  }

  lemma {:induction false} TestScoping(e: Expr, env: ValueEnv, env': ValueEnv, std: Functions)
    requires (e.InSet? || e.AnyOf?) && AgreeOn(FreeNames(e), env, env')
    ensures SameOutcome(Eval(e, env, std), Eval(e, env', std))
    decreases EnvDepth(env), e, 0
  {
    DataScoping(e.subject, env, env', std);
    var s := EvalData(e.subject, env, std);
    if s.Ok? {
      MembersScoping(if e.InSet? then Eq else e.aop, s.value, e.members, env, env', std);
    }
  }

  lemma {:induction false} DataScoping(e: Expr, env: ValueEnv, env': ValueEnv, std: Functions)
    requires AgreeOn(FreeNames(e), env, env')
    ensures EvalData(e, env, std) == EvalData(e, env', std)
    decreases EnvDepth(env), e, 2
  {
    LexicalScoping(e, env, env', std);
  }

  lemma {:induction false} AllScoping(es: seq<Expr>, env: ValueEnv, env': ValueEnv, std: Functions)
    requires AgreeOn(FreeInAll(es), env, env')
    ensures EvalAll(es, env, std) == EvalAll(es, env', std)
    decreases EnvDepth(env), es, 3
  {
    if es != [] {
      DataScoping(es[0], env, env', std);
      AllScoping(es[1..], env, env', std);
    }
  }

  lemma {:induction false} FieldsScoping(inits: seq<FieldInit>, env: ValueEnv, env': ValueEnv, std: Functions)
    requires AgreeOn(FreeInInits(inits), env, env')
    ensures EvalFields(inits, env, std) == EvalFields(inits, env', std)
    decreases EnvDepth(env), inits, 3
  {
    if inits != [] {
      DataScoping(inits[0].init, env, env', std);
      FieldsScoping(inits[1..], env, env', std);
    }
  }

  lemma {:induction false} MembersScoping(op: Op, subject: Value, es: seq<Expr>, env: ValueEnv, env': ValueEnv, std: Functions)
    requires AgreeOn(FreeInAll(es), env, env')
    ensures AnyMember(op, subject, es, env, std) == AnyMember(op, subject, es, env', std)
    decreases EnvDepth(env), es, 3
  {
    if es != [] {
      DataScoping(es[0], env, env', std);
      MembersScoping(op, subject, es[1..], env, env', std);
    }
  }

  lemma {:induction false} HigherOrderScoping(kind: HigherOrderKind, args: seq<Expr>, env: ValueEnv, env': ValueEnv, std: Functions)
    requires HigherOrder(kind).Sig().AcceptsArity(|args|)
    requires AgreeOn(FreeInAll(args), env, env')
    ensures EvalHigherOrder(kind, args, env, std) == EvalHigherOrder(kind, args, env', std)
    decreases EnvDepth(env), args, 3
  {
    FreeInElement(args, 0);
    FreeInElement(args, 1);
    DataScoping(args[0], env, env', std);
    LexicalScoping(args[1], env, env', std);
    if |args| == 3 {
      FreeInElement(args, 2);
      DataScoping(args[2], env, env', std);
    }
    var coll, f, f' := EvalData(args[0], env, std), Eval(args[1], env, std), Eval(args[1], env', std);
    var seed := if |args| == 3 then Some(EvalData(args[2], env, std)) else None;
    if coll.Ok? && coll.value.Array? && f.Ok? && f.value.Closure? {
      ClosureFallsBelow(f.value, args[1], env);
      RunScoping(kind, f.value, f'.value, coll.value.items, seed, std);
      HigherOrderRuns(kind, args, env, std, f.value, coll.value.items, seed);
      HigherOrderRuns(kind, args, env', std, f'.value, coll.value.items, seed);
    } else {
      HigherOrderStops(kind, args, env, env', std);
    }
  }

  lemma HigherOrderRuns(kind: HigherOrderKind, args: seq<Expr>, env: ValueEnv, std: Functions, c: LambdaValue, items: seq<Value>, seed: Option<DataOutcome>)
    requires HigherOrder(kind).Sig().AcceptsArity(|args|) && c.Closure?
    requires EvalData(args[0], env, std) == Ok(Array(items)) && Eval(args[1], env, std) == Ok(c)
    requires seed == if |args| == 3 then Some(EvalData(args[2], env, std)) else None
    ensures EvalHigherOrder(kind, args, env, std) == RunOver(kind, c, items, seed, std)
  {
  }

  lemma HigherOrderStops(kind: HigherOrderKind, args: seq<Expr>, env: ValueEnv, env': ValueEnv, std: Functions)
    requires HigherOrder(kind).Sig().AcceptsArity(|args|)
    requires EvalData(args[0], env, std) == EvalData(args[0], env', std)
    requires SameOutcome(Eval(args[1], env, std), Eval(args[1], env', std))
    requires var coll, f := EvalData(args[0], env, std), Eval(args[1], env, std);
             !(coll.Ok? && coll.value.Array? && f.Ok? && f.value.Closure?)
    ensures EvalHigherOrder(kind, args, env, std) == EvalHigherOrder(kind, args, env', std)
  {
  }

  lemma {:induction false} RunScoping(kind: HigherOrderKind, c: LambdaValue, d: LambdaValue, items: seq<Value>, seed: Option<DataOutcome>, std: Functions)
    requires c.Closure? && d.Closure? && Alike(c, d)
    ensures RunOver(kind, c, items, seed, std) == RunOver(kind, d, items, seed, std)
    decreases EnvDepth(c.captured), c.body, 6
  {
    match kind
    case MapKind => MapScoping(c, d, items, std);
    case FilterKind => FilterScoping(c, d, items, std);
    case ReduceKind =>
      if seed.Some? {
        if seed.value.Ok? {
          FoldScoping(c, d, seed.value.value, items, std);
        }
      } else if items != [] {
        FoldScoping(c, d, items[0], items[1..], std);
      }
  }

  lemma {:induction false} ApplyDataScoping(c: LambdaValue, d: LambdaValue, args: seq<Value>, std: Functions)
    requires c.Closure? && d.Closure? && Alike(c, d)
    ensures ApplyData(c, args, std) == ApplyData(d, args, std)
    decreases EnvDepth(c.captured), c.body, 4
  {
    if |args| == |c.params| {
      var wrapped := seq(|args|, i requires 0 <= i < |args| => Data(args[i]));
      BindDataKeepsDepth(c.captured, c.params, wrapped);
      AgreeAfterBinding(c, d, wrapped, wrapped);
      LexicalScoping(c.body, BindAll(c.captured, c.params, wrapped), BindAll(d.captured, d.params, wrapped), std);
    }
  }

  lemma {:induction false} MapScoping(c: LambdaValue, d: LambdaValue, items: seq<Value>, std: Functions)
    requires c.Closure? && d.Closure? && Alike(c, d)
    ensures MapItems(c, items, std) == MapItems(d, items, std)
    decreases EnvDepth(c.captured), c.body, 5, |items|
  {
    if items != [] {
      ApplyDataScoping(c, d, [items[0]], std);
      MapScoping(c, d, items[1..], std);
    }
  }

  lemma {:induction false} FilterScoping(c: LambdaValue, d: LambdaValue, items: seq<Value>, std: Functions)
    requires c.Closure? && d.Closure? && Alike(c, d)
    ensures FilterItems(c, items, std) == FilterItems(d, items, std)
    decreases EnvDepth(c.captured), c.body, 5, |items|
  {
    if items != [] {
      ApplyDataScoping(c, d, [items[0]], std);
      FilterScoping(c, d, items[1..], std);
    }
  }

  lemma {:induction false} FoldScoping(c: LambdaValue, d: LambdaValue, acc: Value, items: seq<Value>, std: Functions)
    requires c.Closure? && d.Closure? && Alike(c, d)
    ensures FoldItems(c, acc, items, std) == FoldItems(d, acc, items, std)
    decreases EnvDepth(c.captured), c.body, 5, |items|
  {
    if items != [] {
      ApplyDataScoping(c, d, [acc, items[0]], std);
      if ApplyData(c, [acc, items[0]], std).Ok? {
        FoldScoping(c, d, ApplyData(c, [acc, items[0]], std).value, items[1..], std);
      }
    }
  }

  /** Alike closures behave alike: on alike arguments, of any number, they have the same outcome. */
  lemma AlikeClosuresBehaveAlike(c: LambdaValue, d: LambdaValue, args: seq<LambdaValue>, args': seq<LambdaValue>, std: Functions)
    requires c.Closure? && d.Closure? && Alike(c, d)
    requires |args| == |args'|
    requires forall i :: 0 <= i < |args| ==> Alike(args[i], args'[i])
    ensures SameOutcome(Apply(c, args, std), Apply(d, args', std))
  {
    if |args| == |c.params| {
      AgreeAfterBinding(c, d, args, args');
      LexicalScoping(c.body, BindAll(c.captured, c.params, args), BindAll(d.captured, d.params, args'), std);
    }
  }

  /** A binding an expression does not mention cannot change what it evaluates to. */
  lemma UnusedBindingIsInvisible(e: Expr, env: ValueEnv, name: string, v: LambdaValue, std: Functions)
    requires name !in FreeNames(e)
    ensures SameOutcome(Eval(e, env, std), Eval(e, env[name := v], std))
  {
    forall x | x in FreeNames(e) && x in env
      ensures Alike(env[x], env[name := v][x])
    {
      AlikeIsReflexive(env[x]);
    }
    LexicalScoping(e, env, env[name := v], std);
  }

  lemma {:induction false} AlikeIsReflexive(v: LambdaValue)
    ensures Alike(v, v)
  {
    if v.Closure? {
      forall x | x in v.captured
        ensures Alike(v.captured[x], v.captured[x])
      {
        AlikeIsReflexive(v.captured[x]);
      }
    }
  }

  /**
   A parameter shadows a captured binding of the same name: applying a one-parameter closure never
   depends on what its captured environment binds that parameter to.
   */
  lemma ParameterShadowsCapture(param: string, body: Expr, env: ValueEnv, hidden: LambdaValue, arg: LambdaValue, std: Functions)
    ensures Apply(Closure([param], body, env[param := hidden]), [arg], std) == Apply(Closure([param], body, env), [arg], std)
  {
    assert env[param := hidden][param := arg] == env[param := arg];
  }
}
