/** Name resolution as the program runs it: one walk that pushes every bound call into a shared list. */
module ResolverWalk {
  import opened Wrappers
  import opened Ast
  import opened Errors
  import opened Registry
  import opened Resolver

  type Outcome = Result<(), ResolveError>

  /**
   What is still to be resolved, behind the calls already pushed, is worth `total`. After the last step
   `rest` is `Ok([])`, so all of `total` has been pushed.
   */
  ghost predicate Owes(total: Calls, done: seq<ResolvedCall>, rest: Calls) {
    match rest
    case Ok(more) => total == Ok(done + more)
    case Err(e) => total == Err(e)
  }

  /** One step of the walk, then the others: the first error wins. */
  function Then(first: Calls, rest: Calls): Calls {
    var f :- first;
    var r :- rest;
    Ok(f + r)
  }

  /** What the walk leaves behind: the calls, in order, behind those already there, or the first error. */
  ghost predicate Pushed(before: seq<ResolvedCall>, after: seq<ResolvedCall>, r: Outcome, calls: Calls) {
    && before <= after
    && match calls
       case Ok(found) => r.Ok? && after == before + found
       case Err(e) => r == Err(e)
  }

  lemma NothingPushed(s: seq<ResolvedCall>)
    ensures Pushed(s, s, Ok(()), Ok([]))
  {
    assert s + [] == s;
  }

  /** A step that failed ends the walk with its error. */
  lemma StepFails(s0: seq<ResolvedCall>, s1: seq<ResolvedCall>, s2: seq<ResolvedCall>, total: Calls, first: Calls, rest: Calls, e: ResolveError)
    requires s0 <= s1 && Owes(total, s1[|s0|..], Then(first, rest))
    requires Pushed(s1, s2, Err(e), first)
    ensures Pushed(s0, s2, Err(e), total)
  {
  }

  /** A step that succeeded leaves the rest owed. */
  lemma StepSucceeds(s0: seq<ResolvedCall>, s1: seq<ResolvedCall>, s2: seq<ResolvedCall>, total: Calls, first: Calls, rest: Calls)
    requires s0 <= s1 && Owes(total, s1[|s0|..], Then(first, rest))
    requires Pushed(s1, s2, Ok(()), first)
    ensures s0 <= s2 && Owes(total, s2[|s0|..], rest)
  {
    var done, found := s1[|s0|..], first.value;
    assert s2[|s0|..] == done + found;
    if rest.Ok? {
      assert done + (found + rest.value) == (done + found) + rest.value;
    }
  }

  lemma AllPaid(s0: seq<ResolvedCall>, s1: seq<ResolvedCall>, total: Calls)
    requires s0 <= s1 && Owes(total, s1[|s0|..], Ok([]))
    ensures Pushed(s0, s1, Ok(()), total)
  {
    assert s1[|s0|..] + [] == s1[|s0|..] && s1 == s0 + s1[|s0|..];
  }

  lemma NothingPaid(s: seq<ResolvedCall>, total: Calls)
    ensures s <= s && Owes(total, s[|s|..], total)
  {
    assert s[|s|..] == [];
    if total.Ok? {
      assert [] + total.value == total.value;
    }
  }

  // ---- The lists the walk runs over, one element at a time ----

  lemma ExprsStep(mounts: Mounts, es: seq<Expr>, i: nat, receiver: Option<Driver>)
    requires i < |es|
    ensures ResolveExprs(mounts, es[i..], receiver) ==
            Then(ResolveExpr(mounts, es[i], receiver), ResolveExprs(mounts, es[i + 1..], receiver))
  {
    assert es[i..][0] == es[i] && es[i..][1..] == es[i + 1..];
  }

  lemma InitsStep(mounts: Mounts, inits: seq<FieldInit>, i: nat, receiver: Option<Driver>)
    requires i < |inits|
    ensures ResolveInits(mounts, inits[i..], receiver) ==
            Then(ResolveExpr(mounts, inits[i].init, receiver), ResolveInits(mounts, inits[i + 1..], receiver))
  {
    assert inits[i..][0] == inits[i] && inits[i..][1..] == inits[i + 1..];
  }

  lemma OpsStep(mounts: Mounts, ops: seq<PipeOp>, i: nat, scope: Scope, receiver: Option<Driver>)
    requires i < |ops|
    ensures ResolveOps(mounts, ops[i..], scope, receiver) ==
            Then(ResolveOp(mounts, ops[i], scope, receiver), ResolveOps(mounts, ops[i + 1..], scope, receiver))
  {
    assert ops[i..][0] == ops[i] && ops[i..][1..] == ops[i + 1..];
  }

  lemma MembersStep(mounts: Mounts, members: seq<Statement>, i: nat, scope: Scope)
    requires i < |members|
    ensures ResolveMembers(mounts, members[i..], scope) ==
            Then(ResolveStatement(mounts, members[i], scope), ResolveMembers(mounts, members[i + 1..], scope))
  {
    assert members[i..][0] == members[i] && members[i..][1..] == members[i + 1..];
  }

  /** An arm is its stages, then its write. */
  function ResolveArm(mounts: Mounts, arm: SwitchArm, scope: Scope, receiver: Option<Driver>): Calls {
    Then(ResolveOps(mounts, arm.ops, scope, receiver), ResolveArmWrite(mounts, arm.write, receiver))
  }

  lemma ArmsStep(mounts: Mounts, arms: seq<SwitchArm>, i: nat, scope: Scope, receiver: Option<Driver>)
    requires i < |arms|
    ensures ResolveArms(mounts, arms[i..], scope, receiver) ==
            Then(ResolveArm(mounts, arms[i], scope, receiver), ResolveArms(mounts, arms[i + 1..], scope, receiver))
  {
    assert arms[i..][0] == arms[i] && arms[i..][1..] == arms[i + 1..];
  }

  lemma ExprsEnd(mounts: Mounts, es: seq<Expr>, inits: seq<FieldInit>, receiver: Option<Driver>)
    ensures es[0..] == es && ResolveExprs(mounts, es[|es|..], receiver) == Ok([])
    ensures inits[0..] == inits && ResolveInits(mounts, inits[|inits|..], receiver) == Ok([])
  {
  }

  lemma StagesEnd(mounts: Mounts, ops: seq<PipeOp>, arms: seq<SwitchArm>, scope: Scope, receiver: Option<Driver>)
    ensures ops[0..] == ops && ResolveOps(mounts, ops[|ops|..], scope, receiver) == Ok([])
    ensures arms[0..] == arms && ResolveArms(mounts, arms[|arms|..], scope, receiver) == Ok([])
  {
  }

  lemma TwoSteps(s0: seq<ResolvedCall>, s1: seq<ResolvedCall>, s2: seq<ResolvedCall>, first: Calls, r: Outcome, second: Calls)
    requires Pushed(s0, s1, Ok(()), first) && Pushed(s1, s2, r, second)
    ensures Pushed(s0, s2, r, Then(first, second))
  {
    if second.Ok? {
      assert (s0 + first.value) + second.value == s0 + (first.value + second.value);
    }
  }

  lemma CombinesSub(mounts: Mounts, op: PipeOp, scope: Scope, receiver: Option<Driver>)
    requires op.Union? || op.Except? || op.Intersect?
    ensures ResolveOp(mounts, op, scope, receiver) == ResolvePipeline(mounts, op.sub, scope)
  {
  }

  lemma HoldsExprs(mounts: Mounts, op: PipeOp, scope: Scope, receiver: Option<Driver>)
    requires !op.CallOp? && !op.Join? && !op.Switch? && !op.Union? && !op.Except? && !op.Intersect?
    ensures ResolveOp(mounts, op, scope, receiver) == ResolveStageExprs(mounts, op, receiver)
  {
  }

  /** The list every part of the walk pushes into. */
  class Sink {
    var calls: seq<ResolvedCall>

    constructor ()
      ensures calls == []
    {
      calls := [];
    }

    method Push(call: ResolvedCall)
      modifies this
      ensures calls == old(calls) + [call]
    {
      calls := calls + [call];
    }

    method Exprs(mounts: Mounts, es: seq<Expr>, receiver: Option<Driver>) returns (r: Outcome)
      modifies this
      ensures Pushed(old(calls), calls, r, ResolveExprs(mounts, es, receiver))
      decreases es, 1
    {
      ghost var total := ResolveExprs(mounts, es, receiver);
      NothingPaid(calls, total);
      ExprsEnd(mounts, es, [], receiver);
      for i := 0 to |es|
        invariant old(calls) <= calls && Owes(total, calls[|old(calls)|..], ResolveExprs(mounts, es[i..], receiver))
      {
        ghost var before, rest := calls, ResolveExprs(mounts, es[i + 1..], receiver);
        ExprsStep(mounts, es, i, receiver);
        r := Expr(mounts, es[i], receiver);
        if r.Err? {
          StepFails(old(calls), before, calls, total, ResolveExpr(mounts, es[i], receiver), rest, r.error);
          return;
        }
        StepSucceeds(old(calls), before, calls, total, ResolveExpr(mounts, es[i], receiver), rest);
      }
      AllPaid(old(calls), calls, total);
      return Ok(());
    }

    method Inits(mounts: Mounts, inits: seq<FieldInit>, receiver: Option<Driver>) returns (r: Outcome)
      modifies this
      ensures Pushed(old(calls), calls, r, ResolveInits(mounts, inits, receiver))
      decreases inits, 1
    {
      ghost var total := ResolveInits(mounts, inits, receiver);
      NothingPaid(calls, total);
      ExprsEnd(mounts, [], inits, receiver);
      for i := 0 to |inits|
        invariant old(calls) <= calls && Owes(total, calls[|old(calls)|..], ResolveInits(mounts, inits[i..], receiver))
      {
        ghost var before, rest := calls, ResolveInits(mounts, inits[i + 1..], receiver);
        InitsStep(mounts, inits, i, receiver);
        r := Expr(mounts, inits[i].init, receiver);
        if r.Err? {
          StepFails(old(calls), before, calls, total, ResolveExpr(mounts, inits[i].init, receiver), rest, r.error);
          return;
        }
        StepSucceeds(old(calls), before, calls, total, ResolveExpr(mounts, inits[i].init, receiver), rest);
      }
      AllPaid(old(calls), calls, total);
      return Ok(());
    }

    /** The alias a call spells, then whatever its arguments hold. */
    method Called(mounts: Mounts, e: Expr, receiver: Option<Driver>) returns (r: Outcome)
      requires e.Call?
      modifies this
      ensures Pushed(old(calls), calls, r, ResolveExpr(mounts, e, receiver))
      decreases e, 0
    {
      var alias :- ResolveAlias(mounts, e.fname, receiver);
      ghost var found := if alias.Some? then [alias.value] else [];
      if alias.Some? {
        Push(alias.value);
      }
      ghost var middle := calls;
      r := Exprs(mounts, e.args, receiver);
      TwoSteps(old(calls), middle, calls, Ok(found), r, ResolveExprs(mounts, e.args, receiver));
    }

    method Operands(mounts: Mounts, e: Expr, receiver: Option<Driver>) returns (r: Outcome)
      requires e.Binary?
      modifies this
      ensures Pushed(old(calls), calls, r, ResolveExpr(mounts, e, receiver))
      decreases e, 0
    {
      r := Expr(mounts, e.lhs, receiver);
      if r.Err? {
        return;
      }
      ghost var middle := calls;
      r := Expr(mounts, e.rhs, receiver);
      TwoSteps(old(calls), middle, calls, ResolveExpr(mounts, e.lhs, receiver), r, ResolveExpr(mounts, e.rhs, receiver));
    }

    method Listed(mounts: Mounts, e: Expr, receiver: Option<Driver>) returns (r: Outcome)
      requires e.InSet? || e.AnyOf?
      modifies this
      ensures Pushed(old(calls), calls, r, ResolveExpr(mounts, e, receiver))
      decreases e, 0
    {
      r := Expr(mounts, e.subject, receiver);
      if r.Err? {
        return;
      }
      ghost var middle := calls;
      r := Exprs(mounts, e.members, receiver);
      TwoSteps(old(calls), middle, calls, ResolveExpr(mounts, e.subject, receiver), r, ResolveExprs(mounts, e.members, receiver));
    }

    method Ranged(mounts: Mounts, e: Expr, receiver: Option<Driver>) returns (r: Outcome)
      requires e.Between?
      modifies this
      ensures Pushed(old(calls), calls, r, ResolveExpr(mounts, e, receiver))
      decreases e, 0
    {
      ghost var s, lo, hi := ResolveExpr(mounts, e.subject, receiver), ResolveExpr(mounts, e.low, receiver), ResolveExpr(mounts, e.high, receiver);
      r := Expr(mounts, e.subject, receiver);
      if r.Err? {
        return;
      }
      ghost var one := calls;
      r := Expr(mounts, e.low, receiver);
      ghost var two := calls;
      TwoSteps(old(calls), one, two, s, r, lo);
      if r.Err? {
        return;
      }
      r := Expr(mounts, e.high, receiver);
      TwoSteps(old(calls), two, calls, Then(s, lo), r, hi);
    }

    method Matched(mounts: Mounts, e: Expr, receiver: Option<Driver>) returns (r: Outcome)
      requires e.LikePat?
      modifies this
      ensures Pushed(old(calls), calls, r, ResolveExpr(mounts, e, receiver))
      decreases e, 0
    {
      r := Expr(mounts, e.subject, receiver);
      if r.Err? {
        return;
      }
      ghost var middle := calls;
      r := Expr(mounts, e.pattern, receiver);
      TwoSteps(old(calls), middle, calls, ResolveExpr(mounts, e.subject, receiver), r, ResolveExpr(mounts, e.pattern, receiver));
    }

    method Expr(mounts: Mounts, e: Expr, receiver: Option<Driver>) returns (r: Outcome)
      modifies this
      ensures Pushed(old(calls), calls, r, ResolveExpr(mounts, e, receiver))
      decreases e, 1
    {
      NothingPushed(calls);
      match e
      case Call(_, _) => r := Called(mounts, e, receiver);
      case Binary(_, _, _) => r := Operands(mounts, e, receiver);
      case Unary(_, operand) => r := Expr(mounts, operand, receiver);
      case InSet(_, _) => r := Listed(mounts, e, receiver);
      case AnyOf(_, _, _) => r := Listed(mounts, e, receiver);
      case Between(_, _, _) => r := Ranged(mounts, e, receiver);
      case LikePat(_, _) => r := Matched(mounts, e, receiver);
      case Lambda(_, body) => r := Expr(mounts, body, receiver);
      case ArrayOf(elems) => r := Exprs(mounts, elems, receiver);
      case StructOf(inits) => r := Inits(mounts, inits, receiver);
      case _ => return Ok(());
    }

    // ---- Stages, pipelines and statements ----

    method Source(mounts: Mounts, source: Source, scope: Scope) returns (r: Outcome)
      modifies this
      ensures Pushed(old(calls), calls, r, ResolveSource(mounts, source, scope))
      decreases source
    {
      NothingPushed(calls);
      var unbound := ResolveName(source, scope);
      if unbound.Some? {
        return Err(unbound.value);
      }
      if source.Subquery? {
        r := Pipeline(mounts, source.inner, scope);
      } else {
        return Ok(());
      }
    }

    method Pipeline(mounts: Mounts, p: Pipeline, scope: Scope) returns (r: Outcome)
      modifies this
      ensures Pushed(old(calls), calls, r, ResolvePipeline(mounts, p, scope))
      decreases p, 1
    {
      var receiver := ReceiverOf(mounts, p.source);
      r := Source(mounts, p.source, scope);
      if r.Err? {
        return;
      }
      ghost var middle := calls;
      r := Ops(mounts, p.ops, scope, receiver);
      TwoSteps(old(calls), middle, calls, ResolveSource(mounts, p.source, scope), r, ResolveOps(mounts, p.ops, scope, receiver));
    }

    method Ops(mounts: Mounts, ops: seq<PipeOp>, scope: Scope, receiver: Option<Driver>) returns (r: Outcome)
      modifies this
      ensures Pushed(old(calls), calls, r, ResolveOps(mounts, ops, scope, receiver))
      decreases ops, 0
    {
      ghost var total := ResolveOps(mounts, ops, scope, receiver);
      NothingPaid(calls, total);
      StagesEnd(mounts, ops, [], scope, receiver);
      for i := 0 to |ops|
        invariant old(calls) <= calls && Owes(total, calls[|old(calls)|..], ResolveOps(mounts, ops[i..], scope, receiver))
      {
        ghost var before, rest := calls, ResolveOps(mounts, ops[i + 1..], scope, receiver);
        OpsStep(mounts, ops, i, scope, receiver);
        r := Op(mounts, ops[i], scope, receiver);
        if r.Err? {
          StepFails(old(calls), before, calls, total, ResolveOp(mounts, ops[i], scope, receiver), rest, r.error);
          return;
        }
        StepSucceeds(old(calls), before, calls, total, ResolveOp(mounts, ops[i], scope, receiver), rest);
      }
      AllPaid(old(calls), calls, total);
      return Ok(());
    }

    method Op(mounts: Mounts, op: PipeOp, scope: Scope, receiver: Option<Driver>) returns (r: Outcome)
      modifies this
      ensures Pushed(old(calls), calls, r, ResolveOp(mounts, op, scope, receiver))
      decreases op, 1
    {
      if op.CallOp? {
        r := Bound(mounts, op.call);
      } else if op.Union? || op.Except? || op.Intersect? {
        CombinesSub(mounts, op, scope, receiver);
        r := Pipeline(mounts, op.sub, scope);
      } else if op.Join? {
        r := Joined(mounts, op, scope, receiver);
      } else if op.Switch? {
        r := Arms(mounts, op.stage.arms, scope, receiver);
      } else {
        HoldsExprs(mounts, op, scope, receiver);
        r := StageExprs(mounts, op, receiver);
      }
    }

    method Bound(mounts: Mounts, call: CallRef) returns (r: Outcome)
      modifies this
      ensures var lowered := LowerCall(mounts, call);
              Pushed(old(calls), calls, r, if lowered.Ok? then Ok([lowered.value.resolved]) else Err(lowered.error))
    {
      var lowering :- LowerCall(mounts, call);
      Push(lowering.resolved);
      return Ok(());
    }

    method Joined(mounts: Mounts, op: PipeOp, scope: Scope, receiver: Option<Driver>) returns (r: Outcome)
      requires op.Join?
      modifies this
      ensures Pushed(old(calls), calls, r, Then(ResolveSource(mounts, op.source, scope), ResolveExpr(mounts, op.on, receiver)))
      decreases op, 0
    {
      r := Source(mounts, op.source, scope);
      if r.Err? {
        return;
      }
      ghost var middle := calls;
      r := Expr(mounts, op.on, receiver);
      TwoSteps(old(calls), middle, calls, ResolveSource(mounts, op.source, scope), r, ResolveExpr(mounts, op.on, receiver));
    }

    method StageExprs(mounts: Mounts, op: PipeOp, receiver: Option<Driver>) returns (r: Outcome)
      modifies this
      ensures Pushed(old(calls), calls, r, ResolveStageExprs(mounts, op, receiver))
    {
      NothingPushed(calls);
      match op
      case Where(pred) => r := Expr(mounts, pred, receiver);
      case GroupBy(keys) => r := Exprs(mounts, keys, receiver);
      case OrderBy(keys) => r := Exprs(mounts, SortExprs(keys), receiver);
      case Select(projs) => r := Exprs(mounts, ProjectionExprs(projs), receiver);
      case Aggregate(projs) => r := Exprs(mounts, ProjectionExprs(projs), receiver);
      case Extend(asgns) => r := Exprs(mounts, AssignedExprs(asgns), receiver);
      case Set(asgns) => r := Exprs(mounts, AssignedExprs(asgns), receiver);
      case _ => return Ok(());
    }

    method Arms(mounts: Mounts, arms: seq<SwitchArm>, scope: Scope, receiver: Option<Driver>) returns (r: Outcome)
      modifies this
      ensures Pushed(old(calls), calls, r, ResolveArms(mounts, arms, scope, receiver))
      decreases arms, 0
    {
      ghost var total := ResolveArms(mounts, arms, scope, receiver);
      NothingPaid(calls, total);
      StagesEnd(mounts, [], arms, scope, receiver);
      for i := 0 to |arms|
        invariant old(calls) <= calls && Owes(total, calls[|old(calls)|..], ResolveArms(mounts, arms[i..], scope, receiver))
      {
        ghost var before, rest := calls, ResolveArms(mounts, arms[i + 1..], scope, receiver);
        ArmsStep(mounts, arms, i, scope, receiver);
        r := Arm(mounts, arms[i], scope, receiver);
        if r.Err? {
          StepFails(old(calls), before, calls, total, ResolveArm(mounts, arms[i], scope, receiver), rest, r.error);
          return;
        }
        StepSucceeds(old(calls), before, calls, total, ResolveArm(mounts, arms[i], scope, receiver), rest);
      }
      AllPaid(old(calls), calls, total);
      return Ok(());
    }

    method Arm(mounts: Mounts, arm: SwitchArm, scope: Scope, receiver: Option<Driver>) returns (r: Outcome)
      modifies this
      ensures Pushed(old(calls), calls, r, ResolveArm(mounts, arm, scope, receiver))
      decreases arm
    {
      r := Ops(mounts, arm.ops, scope, receiver);
      if r.Err? {
        return;
      }
      ghost var middle := calls;
      r := Write(mounts, arm.write, receiver);
      TwoSteps(old(calls), middle, calls, ResolveOps(mounts, arm.ops, scope, receiver), r, ResolveArmWrite(mounts, arm.write, receiver));
    }

    /** The arm's write is gated, and its returned expressions resolved. */
    method Write(mounts: Mounts, write: Option<ArmWrite>, receiver: Option<Driver>) returns (r: Outcome)
      modifies this
      ensures Pushed(old(calls), calls, r, ResolveArmWrite(mounts, write, receiver))
    {
      NothingPushed(calls);
      if write.None? {
        return Ok(());
      }
      var refused := GateVerb(mounts, write.value.verb, write.value.target);
      if refused.Some? {
        return Err(refused.value);
      }
      if write.value.returning.None? {
        return Ok(());
      }
      r := Exprs(mounts, ProjectionExprs(write.value.returning.value), receiver);
    }

    method Effect(mounts: Mounts, effect: EffectStmt, scope: Scope) returns (r: Outcome)
      modifies this
      ensures Pushed(old(calls), calls, r, ResolveEffect(mounts, effect, scope))
    {
      NothingPushed(calls);
      var refused := GateVerb(mounts, effect.verb, effect.target);
      if refused.Some? {
        return Err(refused.value);
      }
      if effect.body.BodyPipeline? {
        r := Pipeline(mounts, effect.body.pipeline, scope);
      } else {
        return Ok(());
      }
    }

    method Statement(mounts: Mounts, stmt: Statement, scope: Scope) returns (r: Outcome)
      modifies this
      ensures Pushed(old(calls), calls, r, ResolveStatement(mounts, stmt, scope))
      decreases stmt, 1
    {
      match stmt
      case Query(p) => r := Pipeline(mounts, p, scope);
      case Effect(effect) => r := Effect(mounts, effect, scope);
      case PlanWrap(_, inner) => r := Statement(mounts, inner, scope);
      case Let(name, value, body) =>
        r := Statement(mounts, value, scope);
        if r.Err? {
          return;
        }
        ghost var middle := calls;
        r := Statement(mounts, body, scope + {name});
        TwoSteps(old(calls), middle, calls, ResolveStatement(mounts, value, scope), r, ResolveStatement(mounts, body, scope + {name}));
      case Transaction(members) => r := Members(mounts, members, scope);
      case Ddl(_, _) => r := Definition(mounts, stmt, scope);
    }

    /** A definition's body clauses, each there or not. */
    method Definition(mounts: Mounts, stmt: Statement, scope: Scope) returns (r: Outcome)
      requires stmt.Ddl?
      modifies this
      ensures Pushed(old(calls), calls, r, ResolveStatement(mounts, stmt, scope))
      decreases stmt, 0
    {
      NothingPushed(calls);
      r := Ok(());
      if stmt.doPlan.Some? {
        r := Statement(mounts, stmt.doPlan.value, scope);
        if r.Err? {
          return;
        }
      }
      ghost var middle := calls;
      NothingPushed(calls);
      if stmt.asQuery.Some? {
        r := Statement(mounts, stmt.asQuery.value, scope);
      }
      TwoSteps(old(calls), middle, calls,
               if stmt.doPlan.Some? then ResolveStatement(mounts, stmt.doPlan.value, scope) else Ok([]), r,
               if stmt.asQuery.Some? then ResolveStatement(mounts, stmt.asQuery.value, scope) else Ok([]));
    }

    method Members(mounts: Mounts, members: seq<Statement>, scope: Scope) returns (r: Outcome)
      modifies this
      ensures Pushed(old(calls), calls, r, ResolveMembers(mounts, members, scope))
      decreases members, 1
    {
      ghost var total := ResolveMembers(mounts, members, scope);
      NothingPaid(calls, total);
      assert members[0..] == members;
      for i := 0 to |members|
        invariant old(calls) <= calls && Owes(total, calls[|old(calls)|..], ResolveMembers(mounts, members[i..], scope))
      {
        ghost var before, rest := calls, ResolveMembers(mounts, members[i + 1..], scope);
        MembersStep(mounts, members, i, scope);
        r := Statement(mounts, members[i], scope);
        if r.Err? {
          StepFails(old(calls), before, calls, total, ResolveStatement(mounts, members[i], scope), rest, r.error);
          return;
        }
        StepSucceeds(old(calls), before, calls, total, ResolveStatement(mounts, members[i], scope), rest);
      }
      assert members[|members|..] == [];
      AllPaid(old(calls), calls, total);
      return Ok(());
    }
  }

  /** A fresh list, an empty scope; the list is handed out only when the whole walk succeeds. */
  method ResolveAll(mounts: Mounts, stmt: Statement) returns (r: Calls)
    ensures r == ResolveStatement(mounts, stmt, {})
  {
    var sink := new Sink();
    var outcome := sink.Statement(mounts, stmt, {});
    if outcome.Err? {
      return Err(outcome.error);
    }
    ghost var found := ResolveStatement(mounts, stmt, {}).value;
    assert [] + found == found;
    return Ok(sink.calls);
  }
}
