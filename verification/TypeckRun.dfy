/** The checker's loops as the program runs them, proved to compute `Typeck`'s functions. */
module TypeckRun {
  import opened Wrappers
  import opened Types
  import opened Ast
  import opened Errors
  import opened Stdlib
  import opened Typeck
  import opened LambdaRun

  /** Every element is checked; the first one's type is the element type. */
  method CheckArray(elems: seq<Expr>, env: TyEnv, schema: Schema, std: Option<Functions>) returns (r: Checked)
    ensures r == CheckExpr(ArrayOf(elems), env, schema, std)
  {
    var elemTy := TUnknown;
    ghost var seen: seq<Ty> := [];
    PrependNothing(CheckAll(elems, env, schema, std));
    for i := 0 to |elems|
      invariant |seen| == i && elemTy == if i == 0 then TUnknown else AsColumnType(seen[0])
      invariant CheckAll(elems, env, schema, std) == Prepend(seen, CheckAll(elems[i..], env, schema, std))
    {
      var t :- CheckExpr(elems[i], env, schema, std);
      assert elems[i..][1..] == elems[i + 1..];
      PrependOne(seen, t, CheckAll(elems[i + 1..], env, schema, std));
      if i == 0 {
        elemTy := AsColumnType(t);
      }
      seen := seen + [t];
    }
    PrependToNothing(seen);
    return Ok(Prim(TArray(elemTy)));
  }

  method CheckStruct(inits: seq<FieldInit>, env: TyEnv, schema: Schema, std: Option<Functions>) returns (r: Checked)
    ensures r == CheckExpr(StructOf(inits), env, schema, std)
  {
    var cols := [];
    PrependNothing(CheckInits(inits, env, schema, std));
    for i := 0 to |inits|
      invariant CheckInits(inits, env, schema, std) == Prepend(cols, CheckInits(inits[i..], env, schema, std))
    {
      var t :- CheckExpr(inits[i].init, env, schema, std);
      assert inits[i..][1..] == inits[i + 1..];
      PrependOne(cols, NewColumn(inits[i].name, AsColumnType(t), true), CheckInits(inits[i + 1..], env, schema, std));
      cols := cols + [NewColumn(inits[i].name, AsColumnType(t), true)];
    }
    PrependToNothing(cols);
    return Ok(Prim(TStruct(Schema(cols))));
  }

  /** The parameters bound so far, and what binding the others gives. */
  ghost predicate Binds(total: Result<(TyEnv, seq<Ty>), EvalError>, done: seq<Ty>, rest: Result<(TyEnv, seq<Ty>), EvalError>) {
    match rest
    case Ok(bound) => total == Ok((bound.0, done + bound.1))
    case Err(e) => total == Err(e)
  }

  lemma BindsNothing(total: Result<(TyEnv, seq<Ty>), EvalError>)
    ensures Binds(total, [], total)
  {
    if total.Ok? {
      assert [] + total.value.1 == total.value.1;
    }
  }

  lemma BindsOne(total: Result<(TyEnv, seq<Ty>), EvalError>, done: seq<Ty>, ty: Ty, rest: Result<(TyEnv, seq<Ty>), EvalError>)
    requires Binds(total, done, if rest.Ok? then Ok((rest.value.0, [ty] + rest.value.1)) else rest)
    ensures Binds(total, done + [ty], rest)
  {
    if rest.Ok? {
      assert done + ([ty] + rest.value.1) == done + [ty] + rest.value.1;
    }
  }

  /** Each parameter extends the scope at its annotation; the element's parameter must accept the element type. */
  method BindLoop(fname: string, params: seq<Param>, env: TyEnv, position: int, within: ColumnType)
      returns (r: Result<(TyEnv, seq<Ty>), EvalError>)
    ensures r == BindParams(fname, params, env, position, within)
  {
    var lenv, tys := env, [];
    ghost var total := BindParams(fname, params, env, position, within);
    BindsNothing(total);
    assert params[0..] == params;
    for i := 0 to |params|
      invariant Binds(total, tys, BindParams(fname, params[i..], lenv, position - i, within))
    {
      assert params[i..][0] == params[i] && params[i..][1..] == params[i + 1..];
      var ty :- ParamType(params[i].ann);
      if i == position && ty.Prim? && !Assignable(ty.ct, within) {
        return Err(Fn(WrongType(fname)));
      }
      lenv := lenv[params[i].name := ty];
      BindsOne(total, tys, ty, BindParams(fname, params[i + 1..], lenv, position - i - 1, within));
      tys := tys + [ty];
    }
    assert tys + [] == tys;
    return Ok((lenv, tys));
  }

  method CheckLambda(params: seq<Param>, body: Expr, env: TyEnv, schema: Schema, std: Option<Functions>) returns (r: Checked)
    ensures r == CheckExpr(Lambda(params, body), env, schema, std)
  {
    var bound :- BindLoop("", params, env, -1, TUnknown);
    var result :- CheckExpr(body, bound.0, schema, std);
    return Ok(FnTy(bound.1, result));
  }

  method MembersLoop(subject: Ty, members: seq<Expr>, env: TyEnv, schema: Schema, std: Option<Functions>)
      returns (r: Result<(), EvalError>)
    ensures r == CheckMembers(subject, members, env, schema, std)
  {
    for i := 0 to |members|
      invariant CheckMembers(subject, members, env, schema, std) == CheckMembers(subject, members[i..], env, schema, std)
    {
      assert members[i..][1..] == members[i + 1..];
      var t :- CheckExpr(members[i], env, schema, std);
      var _ :- RequireComparable(CmpEq, subject, t);
    }
    return Ok(());
  }

  /** A static contract is enforced where the signature declares one. */
  method ArgsLoop(fname: string, args: seq<Expr>, expected: seq<Option<ColumnType>>, env: TyEnv, schema: Schema, std: Option<Functions>)
      returns (r: Result<(), EvalError>)
    ensures r == CheckArgs(fname, args, expected, env, schema, std)
  {
    ghost var contracts := expected;
    for i := 0 to |args|
      invariant contracts == if i <= |expected| then expected[i..] else []
      invariant CheckArgs(fname, args, expected, env, schema, std) == CheckArgs(fname, args[i..], contracts, env, schema, std)
    {
      assert args[i..][0] == args[i] && args[i..][1..] == args[i + 1..];
      var t :- CheckExpr(args[i], env, schema, std);
      if i < |expected| && expected[i].Some? {
        var _ :- RequireAssignable(fname, expected[i].value, t);
      }
      contracts := if contracts == [] then [] else contracts[1..];
    }
    return Ok(());
  }

  method CheckApplication(kind: HigherOrderKind, fname: string, args: seq<Expr>, env: TyEnv, schema: Schema, reg: Functions)
      returns (r: Checked)
    requires |args| >= 2
    ensures r == CheckHigherOrder(kind, fname, args, env, schema, reg)
  {
    var coll :- CheckExpr(args[0], env, schema, Some(reg));
    var elem := if coll.Prim? && coll.ct.TArray? then coll.ct.elem else TUnknown;
    if !args[1].Lambda? {
      var _ :- CheckExpr(args[1], env, schema, Some(reg));
      return Ok(LATE_BOUND);
    }
    var bound :- BindLoop(fname, args[1].params, env, if kind == ReduceKind then 1 else 0, elem);
    var result :- CheckExpr(args[1].body, bound.0, schema, Some(reg));
    match kind
    case MapKind => return Ok(Prim(TArray(AsColumnType(result))));
    case FilterKind => return Ok(coll);
    case ReduceKind => return Ok(result);
  }
}
