/** The resolver's scope and the evaluator's environment walk in step: an accepted statement finds its names. */
module ScopeAgreement {
  import opened Wrappers
  import opened Types
  import opened Ast
  import opened Errors
  import opened Registry
  import opened Relations
  import opened Evaluator
  import opened Substitution
  import opened Resolver
  import P = Plan

  // ---- What the resolver accepts ----

  /** Every name is in scope or spells a realm. */
  predicate Reachable(names: set<string>, scope: Scope) {
    forall n | n in names :: n in scope || RealmOf(n).Some?
  }

  lemma {:induction false} AcceptedSource(mounts: Mounts, source: Source, scope: Scope)
    requires ResolveSource(mounts, source, scope).Ok?
    ensures Reachable(FreeSource(source), scope)
    decreases source
  {
    if source.Subquery? {
      AcceptedPipeline(mounts, source.inner, scope);
    }
  }

  lemma {:induction false} AcceptedPipeline(mounts: Mounts, p: Pipeline, scope: Scope)
    requires ResolvePipeline(mounts, p, scope).Ok?
    ensures Reachable(FreePipeline(p), scope)
    decreases p, 1
  {
    AcceptedSource(mounts, p.source, scope);
    AcceptedOps(mounts, p.ops, scope, ReceiverOf(mounts, p.source));
  }

  lemma {:induction false} AcceptedOps(mounts: Mounts, ops: seq<PipeOp>, scope: Scope, receiver: Option<Driver>)
    requires ResolveOps(mounts, ops, scope, receiver).Ok?
    ensures Reachable(FreeOps(ops), scope)
    decreases ops, 0
  {
    if ops != [] {
      AcceptedOp(mounts, ops[0], scope, receiver);
      AcceptedOps(mounts, ops[1..], scope, receiver);
    }
  }

  lemma {:induction false} AcceptedOp(mounts: Mounts, op: PipeOp, scope: Scope, receiver: Option<Driver>)
    requires ResolveOp(mounts, op, scope, receiver).Ok?
    ensures Reachable(FreeOp(op), scope)
    decreases op
  {
    match op
    case Union(sub) => AcceptedPipeline(mounts, sub, scope);
    case Except(sub) => AcceptedPipeline(mounts, sub, scope);
    case Intersect(sub) => AcceptedPipeline(mounts, sub, scope);
    case Join(source, _) => AcceptedSource(mounts, source, scope);
    case Switch(stage) => AcceptedArms(mounts, stage.arms, scope, receiver);
    case _ =>
  }

  lemma {:induction false} AcceptedArms(mounts: Mounts, arms: seq<SwitchArm>, scope: Scope, receiver: Option<Driver>)
    requires ResolveArms(mounts, arms, scope, receiver).Ok?
    ensures Reachable(FreeArms(arms), scope)
    decreases arms, 0
  {
    if arms != [] {
      AcceptedOps(mounts, arms[0].ops, scope, receiver);
      AcceptedArms(mounts, arms[1..], scope, receiver);
    }
  }

  /** A statement the resolver accepts takes no name from outside its scope but a realm's. */
  lemma {:induction false} AcceptedNamesAreReachable(mounts: Mounts, stmt: Statement, scope: Scope)
    requires ResolveStatement(mounts, stmt, scope).Ok?
    ensures Reachable(FreeNames(stmt), scope)
    decreases stmt, 0
  {
    match stmt
    case Query(p) => AcceptedPipeline(mounts, p, scope);
    case Effect(effect) =>
      if effect.body.BodyPipeline? {
        AcceptedPipeline(mounts, effect.body.pipeline, scope);
      }
    case PlanWrap(_, inner) => AcceptedNamesAreReachable(mounts, inner, scope);
    case Let(name, value, body) =>
      AcceptedNamesAreReachable(mounts, value, scope);
      AcceptedNamesAreReachable(mounts, body, scope + {name});
    case Transaction(members) => AcceptedMembers(mounts, members, scope);
    case Ddl(_, _) =>
  }

  lemma {:induction false} AcceptedMembers(mounts: Mounts, members: seq<Statement>, scope: Scope)
    requires ResolveMembers(mounts, members, scope).Ok?
    ensures Reachable(FreeInMembers(members), scope)
    decreases members, 1
  {
    if members != [] {
      AcceptedNamesAreReachable(mounts, members[0], scope);
      AcceptedMembers(mounts, members[1..], scope);
    }
  }

  // ---- What the evaluator cannot find ----

  /** An unknown binding is a free name the environment lacks. */
  predicate Faults(e: EvalError, names: set<string>, env: Env) {
    e.Resolve? && e.resolve.UnknownBinding? ==> e.resolve.name in names && e.resolve.name !in env
  }

  predicate RelationFaults(r: Relation, names: set<string>, env: Env) {
    r.Err? ==> Faults(r.error, names, env)
  }

  lemma {:induction false} SourceFaults(w: World, source: Source, env: Env)
    ensures RelationFaults(EvalSource(w, source, env), FreeSource(source), env)
    decreases source
  {
    if source.Subquery? {
      PipelineFaults(w, source.inner, env);
    }
  }

  lemma {:induction false} PipelineFaults(w: World, p: Pipeline, env: Env)
    ensures RelationFaults(FoldQuery(w, p, env), FreePipeline(p), env)
    decreases p, 1
  {
    SourceFaults(w, p.source, env);
    var src := EvalSource(w, p.source, env);
    if src.Ok? {
      OpsFaults(w, src.value, p.ops, env);
    }
  }

  lemma {:induction false} OpsFaults(w: World, src: PlanSource, ops: seq<PipeOp>, env: Env)
    ensures RelationFaults(FoldOps(w, src, ops, env), FreeOps(ops), env)
    decreases ops, 0
  {
    if ops != [] {
      OpFaults(w, src, ops[0], env);
      var next := FoldOp(w, src, ops[0], env);
      if next.Ok? {
        OpsFaults(w, next.value, ops[1..], env);
      }
    }
  }

  lemma JoinStageFaults(w: World, input: PlanSource, op: PipeOp, env: Env)
    requires op.Join?
    ensures FoldOp(w, input, op, env) == JoinWithSource(input, EvalSource(w, op.source, env))
  {
  }

  lemma {:induction false} OpFaults(w: World, input: PlanSource, op: PipeOp, env: Env)
    ensures RelationFaults(FoldOp(w, input, op, env), FreeOp(op), env)
    decreases op
  {
    if op.Union? || op.Except? || op.Intersect? {
      PipelineFaults(w, op.sub, env);
      SetStageCombines(w, input, op, env);
    } else if op.Join? {
      SourceFaults(w, op.source, env);
      JoinStageFaults(w, input, op, env);
    } else {
      SimpleStage(w, input, op, env);
    }
  }

  predicate PlannedFaults(r: Planned, names: set<string>, env: Env) {
    r.Err? ==> Faults(r.error, names, env)
  }

  predicate EvaluatedFaults(r: Evaluated, names: set<string>, env: Env) {
    r.Err? ==> Faults(r.error, names, env)
  }

  lemma ReturningFaults(w: World, effect: EffectStmt, env: Env, plan: P.Plan)
    ensures PlannedFaults(WithReturning(w, effect, env, plan), FreeEffect(effect), env)
  {
    InputFaults(w, effect, env);
    var input := EffectInputSchema(w, effect, env);
    if effect.returning.Some? && input.Ok? {
      ProjectionErrors(w, input.value, effect.returning.value, false);
    }
  }

  lemma InputFaults(w: World, effect: EffectStmt, env: Env)
    ensures var r := EffectInputSchema(w, effect, env); r.Err? ==> Faults(r.error, FreeEffect(effect), env)
    ensures var r := Feed(w, effect, env); r.Err? ==> Faults(r.error, FreeEffect(effect), env)
  {
    if effect.body.BodyPipeline? {
      PipelineFaults(w, effect.body.pipeline, env);
    }
  }

  lemma PlanForFaults(w: World, effect: EffectStmt, env: Env, route: (string, Driver, string), feed: Option<PlanSource>, args: Option<RowBatch>, selector: Option<RowBatch>)
    ensures PlannedFaults(PlanFor(w, effect, env, route, feed, args, selector), FreeEffect(effect), env)
  {
    ReturningFaults(w, effect, env, GenericWrite(effect, feed, route.1, route.0, route.2, args, selector));
  }

  lemma WriteFromFaults(w: World, effect: EffectStmt, env: Env, checked: Result<(), EvalError>, routed: Result<(string, Driver, string), EvalError>,
      fed: Result<Option<PlanSource>, EvalError>, payload: Result<Option<RowBatch>, EvalError>)
    requires checked.Err? ==> !checked.error.Resolve?
    requires routed.Err? ==> !routed.error.Resolve?
    requires fed.Err? ==> Faults(fed.error, FreeEffect(effect), env)
    requires payload.Err? ==> !payload.error.Resolve?
    ensures PlannedFaults(WriteFrom(w, effect, env, checked, routed, fed, payload), FreeEffect(effect), env)
  {
    if checked.Ok? && routed.Ok? && fed.Ok? && payload.Ok? {
      var selector := Selector(effect, routed.value.0);
      if selector.Ok? {
        PlanForFaults(w, effect, env, routed.value, fed.value, payload.value, selector.value);
      }
    }
  }

  lemma WriteFaults(w: World, effect: EffectStmt, env: Env)
    ensures PlannedFaults(EvalWrite(w, effect, env), FreeEffect(effect), env)
  {
    InputFaults(w, effect, env);
    WriteFromFaults(w, effect, env, CheckFilter(w, effect, env), RouteTarget(w, effect.target), Feed(w, effect, env), Payload(w, effect, env));
  }

  lemma EffectCallFaults(w: World, call: CallRef, lowering: CallLowering, source: Relation, names: set<string>, env: Env)
    requires |call.args| <= |lowering.params| && RelationFaults(source, names, env)
    ensures PlannedFaults(EffectCall(w, call, lowering, source), names, env)
  {
  }

  lemma CallFaults(w: World, p: Pipeline, call: CallRef, env: Env)
    requires p.ops != []
    ensures EvaluatedFaults(EvalTerminalCall(w, p, call, env), FreePipeline(p), env)
  {
    LastStage(p, map[]);
    PipelineFaults(w, p, env);
    PipelineFaults(w, DropLast(p), env);
    var lowered := LowerCall(w.mounts, call);
    if lowered.Ok? {
      EffectCallFaults(w, call, lowered.value, FoldQuery(w, DropLast(p), env), FreePipeline(p), env);
    }
  }

  lemma ArmFaults(w: World, source: Pipeline, arm: SwitchArm, env: Env)
    ensures PlannedFaults(ArmPlan(w, source, arm, env), FreePipeline(source) + FreeOps(arm.ops), env)
  {
    FreeOpsConcat(source.ops, arm.ops);
    if ArmOpsSupported(arm) && arm.write.Some? {
      ArmWriteFaults(w, Routed(source, arm), arm.write.value, env);
      ArmOfWrite(w, source, arm, env);
    } else if ArmOpsSupported(arm) && arm.ops != [] && arm.ops[|arm.ops| - 1].CallOp? {
      CallFaults(w, Routed(source, arm), arm.ops[|arm.ops| - 1].call, env);
      ArmOfCall(w, source, arm, env);
    } else {
      ArmOfNeither(w, source, arm, env);
    }
  }

  lemma ArmWriteFaults(w: World, routed: Pipeline, write: ArmWrite, env: Env)
    ensures PlannedFaults(ArmWritePlan(w, routed, write, env), FreePipeline(routed), env)
  {
    WriteFaults(w, EffectStmt(write.verb, write.target, BodyPipeline(routed), write.returning), env);
  }

  lemma ArmsFault(w: World, source: Pipeline, arms: seq<SwitchArm>, env: Env)
    ensures PlannedFaults(Sequence(ArmPlans(w, source, arms, env), P.PURE, 0), FreePipeline(source) + FreeArms(arms), env)
  {
    var plans, names := ArmPlans(w, source, arms, env), FreePipeline(source) + FreeArms(arms);
    forall i | 0 <= i < |plans|
      ensures PlannedFaults(plans[i], names, env)
    {
      ArmPlanAt(w, source, arms, env, i);
      ArmParts(arms, map[], i);
      ArmFaults(w, source, arms[i], env);
    }
    SequenceFaults(plans, P.PURE, 0, names, env);
  }

  lemma SwitchOverFaults(stage: SwitchStage, source: Relation, arms: seq<Planned>, names: set<string>, env: Env)
    requires RelationFaults(source, names, env) && PlannedFaults(Sequence(arms, P.PURE, 0), names, env)
    ensures EvaluatedFaults(SwitchOver(stage, source, arms), names, env)
  {
  }

  lemma {:induction false} SequenceFaults(plans: seq<Planned>, acc: P.Plan, base: nat, names: set<string>, env: Env)
    requires forall i :: 0 <= i < |plans| ==> PlannedFaults(plans[i], names, env)
    ensures PlannedFaults(Sequence(plans, acc, base), names, env)
    decreases plans
  {
    if plans != [] && plans[0].Ok? {
      SequenceFaults(plans[1..], P.Then(acc, P.Relabel(plans[0].value, base)), base + |plans[0].value.nodes|, names, env);
    }
  }

  lemma SwitchFaults(w: World, p: Pipeline, stage: SwitchStage, env: Env)
    requires p.ops != [] && p.ops[|p.ops| - 1] == Switch(stage)
    ensures EvaluatedFaults(EvalTerminalSwitch(w, p, stage, env), FreePipeline(p), env)
  {
    LastStage(p, map[]);
    PipelineFaults(w, DropLast(p), env);
    ArmsFault(w, DropLast(p), stage.arms, env);
    SwitchOverFaults(stage, FoldQuery(w, DropLast(p), env), ArmPlans(w, DropLast(p), stage.arms, env), FreePipeline(p), env);
  }

  lemma QueryFaults(w: World, p: Pipeline, env: Env)
    ensures EvaluatedFaults(EvalQuery(w, p, env), FreePipeline(p), env)
  {
    if IsPlain(p) {
      PipelineFaults(w, p, env);
      PlainQuery(w, p, env);
    } else if p.ops[|p.ops| - 1].CallOp? {
      CallFaults(w, p, p.ops[|p.ops| - 1].call, env);
      CallQuery(w, p, env);
    } else {
      SwitchFaults(w, p, p.ops[|p.ops| - 1].stage, env);
      SwitchQuery(w, p, env);
    }
  }

  /** An evaluation that misses a name misses one of its free names. */
  lemma {:induction false} OnlyFreeNamesAreMissed(w: World, stmt: Statement, env: Env)
    ensures EvaluatedFaults(EvalInner(w, stmt, env), FreeNames(stmt), env)
    decreases stmt, 0
  {
    match stmt
    case Query(p) => QueryFaults(w, p, env);
    case Effect(effect) => WriteFaults(w, effect, env);
    case PlanWrap(_, inner) => OnlyFreeNamesAreMissed(w, inner, env);
    case Let(name, value, body) =>
      OnlyFreeNamesAreMissed(w, value, env);
      LetMeaning(w, name, value, body, env);
      var bound := EvalInner(w, value, env);
      if bound.Ok? && bound.value.Relation? {
        OnlyFreeNamesAreMissed(w, body, env[name := bound.value.rel]);
      }
    case Transaction(members) =>
      MembersFaults(w, members, env);
      SequenceFaults(MemberPlans(w, members, env), P.PURE, 0, FreeInMembers(members), env);
    case Ddl(_, _) =>
  }

  lemma {:induction false} MembersFaults(w: World, members: seq<Statement>, env: Env)
    ensures forall i :: 0 <= i < |members| ==> PlannedFaults(MemberPlans(w, members, env)[i], FreeInMembers(members), env)
    decreases members, 1
  {
    if members != [] {
      OnlyFreeNamesAreMissed(w, members[0], env);
      MembersFaults(w, members[1..], env);
    }
  }

  /**
   Resolver and evaluator agree on scope: started on the same names, an accepted statement never misses a
   binding, but for a source spelled as a realm.
   */
  lemma AcceptedStatementsFindTheirNames(w: World, stmt: Statement, env: Env, name: string)
    requires ResolveStatement(w.mounts, stmt, env.Keys).Ok?
    requires EvalInner(w, stmt, env) == Err(Resolve(UnknownBinding(name)))
    ensures RealmOf(name).Some?
  {
    AcceptedNamesAreReachable(w.mounts, stmt, env.Keys);
    OnlyFreeNamesAreMissed(w, stmt, env);
  }

  /** The exception is real: `FROM me` resolves and is then unbound. */
  lemma RealmNameIsAcceptedAndMissed(w: World)
    ensures var stmt := Query(Pipeline(FromName("me"), []));
            && ResolveStatement(w.mounts, stmt, {}).Ok?
            && EvalInner(w, stmt, map[]) == Err(Resolve(UnknownBinding("me")))
  {
    var p := Pipeline(FromName("me"), []);
    PlainQuery(w, p, map[]);
    assert RealmOf("me").Some?;
    assert EvalSource(w, FromName("me"), map[]) == Err(Resolve(UnknownBinding("me")));
    assert ResolveSource(w.mounts, FromName("me"), {}).Ok?;
    assert ResolveOps(w.mounts, [], {}, ReceiverOf(w.mounts, p.source)).Ok?;
  }
}
