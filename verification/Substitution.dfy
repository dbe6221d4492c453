/** Names in statements: which are free, what replacing them by sub-queries does, and why `LET` can be inlined. */
module Substitution {
  import opened Wrappers
  import opened Types
  import opened Ast
  import opened Errors
  import opened Registry
  import opened Relations
  import opened Evaluator
  import Resolver
  import P = Plan

  // ---- Free names ----

  function FreeSource(source: Source): set<string>
    decreases source
  {
    match source
    case FromName(name) => {name}
    case Subquery(inner) => FreePipeline(inner)
    case _ => {}
  }

  function FreePipeline(p: Pipeline): set<string>
    decreases p, 1
  {
    FreeSource(p.source) + FreeOps(p.ops)
  }

  function FreeOps(ops: seq<PipeOp>): set<string>
    decreases ops, 0
  {
    if ops == [] then {} else FreeOp(ops[0]) + FreeOps(ops[1..])
  }

  function FreeOp(op: PipeOp): set<string>
    decreases op
  {
    match op
    case Union(sub) => FreePipeline(sub)
    case Except(sub) => FreePipeline(sub)
    case Intersect(sub) => FreePipeline(sub)
    case Join(source, _) => FreeSource(source)
    case Switch(stage) => FreeArms(stage.arms)
    case _ => {}
  }

  function FreeArms(arms: seq<SwitchArm>): set<string>
    decreases arms, 0
  {
    if arms == [] then {} else FreeOps(arms[0].ops) + FreeArms(arms[1..])
  }

  function FreeEffect(effect: EffectStmt): set<string> {
    if effect.body.BodyPipeline? then FreePipeline(effect.body.pipeline) else {}
  }

  /** The names a statement takes from its environment; `LET` binds its own in its body. */
  function FreeNames(stmt: Statement): set<string>
    decreases stmt, 0
  {
    match stmt
    case Query(p) => FreePipeline(p)
    case Effect(effect) => FreeEffect(effect)
    case PlanWrap(_, inner) => FreeNames(inner)
    case Let(name, value, body) => FreeNames(value) + (FreeNames(body) - {name})
    case Transaction(members) => FreeInMembers(members)
    case Ddl(_, _) => {}
  }

  function FreeInMembers(members: seq<Statement>): set<string>
    decreases members, 1
  {
    if members == [] then {} else FreeNames(members[0]) + FreeInMembers(members[1..])
  }

  // ---- Substitution ----

  type Subst = map<string, Pipeline>

  function SubstSource(source: Source, s: Subst): Source
    decreases source
  {
    match source
    case FromName(name) => if name in s then Subquery(s[name]) else source
    case Subquery(inner) => Subquery(SubstPipeline(inner, s))
    case _ => source
  }

  function SubstPipeline(p: Pipeline, s: Subst): Pipeline
    decreases p, 1
  {
    Pipeline(SubstSource(p.source, s), SubstOps(p.ops, s))
  }

  function SubstOps(ops: seq<PipeOp>, s: Subst): (r: seq<PipeOp>)
    ensures |r| == |ops|
    decreases ops, 0
  {
    if ops == [] then [] else [SubstOp(ops[0], s)] + SubstOps(ops[1..], s)
  }

  function SubstOp(op: PipeOp, s: Subst): PipeOp
    decreases op
  {
    match op
    case Union(sub) => Union(SubstPipeline(sub, s))
    case Except(sub) => Except(SubstPipeline(sub, s))
    case Intersect(sub) => Intersect(SubstPipeline(sub, s))
    case Join(source, on) => Join(SubstSource(source, s), on)
    case Switch(stage) => Switch(SwitchStage(stage.discriminant, SubstArms(stage.arms, s)))
    case _ => op
  }

  function SubstArms(arms: seq<SwitchArm>, s: Subst): (r: seq<SwitchArm>)
    ensures |r| == |arms|
    decreases arms, 0
  {
    if arms == [] then []
    else [SwitchArm(arms[0].tag, SubstOps(arms[0].ops, s), arms[0].write)] + SubstArms(arms[1..], s)
  }

  function SubstEffect(effect: EffectStmt, s: Subst): EffectStmt {
    if effect.body.BodyPipeline? then effect.(body := BodyPipeline(SubstPipeline(effect.body.pipeline, s))) else effect
  }

  /** Replaces every free name the substitution covers; an inner `LET` of the same name hides it. */
  function SubstStatement(stmt: Statement, s: Subst): Statement
    decreases stmt, 0
  {
    match stmt
    case Query(p) => Query(SubstPipeline(p, s))
    case Effect(effect) => Effect(SubstEffect(effect, s))
    case PlanWrap(commit, inner) => PlanWrap(commit, SubstStatement(inner, s))
    case Let(name, value, body) => Let(name, SubstStatement(value, s), SubstStatement(body, s - {name}))
    case Transaction(members) => Transaction(SubstMembers(members, s))
    case Ddl(_, _) => stmt
  }

  function SubstMembers(members: seq<Statement>, s: Subst): (r: seq<Statement>)
    ensures |r| == |members|
    decreases members, 1
  {
    if members == [] then [] else [SubstStatement(members[0], s)] + SubstMembers(members[1..], s)
  }

  /** No inner `LET` binds a name that a replacement used in its body takes from outside. */
  predicate NoCapture(stmt: Statement, s: Subst)
    decreases stmt, 0
  {
    match stmt
    case Let(name, value, body) =>
      && NoCapture(value, s)
      && NoCapture(body, s - {name})
      && forall n | n in s && n in FreeNames(body) && n != name :: name !in FreePipeline(s[n])
    case PlanWrap(_, inner) => NoCapture(inner, s)
    case Transaction(members) => NoCaptureIn(members, s)
    case _ => true
  }

  predicate NoCaptureIn(members: seq<Statement>, s: Subst)
    decreases members, 1
  {
    members == [] || (NoCapture(members[0], s) && NoCaptureIn(members[1..], s))
  }

  // ---- Pipelines ----

  /** Each of these names means in `e2`, after substitution, what it means in `e1`. */
  ghost predicate Related(w: World, names: set<string>, s: Subst, e1: Env, e2: Env) {
    forall n | n in names :: Bound(w, n, s, e1, e2)
  }

  predicate Bound(w: World, n: string, s: Subst, e1: Env, e2: Env) {
    if n in s then n in e1 && FoldQuery(w, s[n], e2) == Ok(e1[n])
    else (n in e1 <==> n in e2) && (n in e1 ==> e1[n] == e2[n])
  }

  lemma {:induction false} SourceMeaning(w: World, source: Source, s: Subst, e1: Env, e2: Env)
    requires Related(w, FreeSource(source), s, e1, e2)
    ensures EvalSource(w, source, e1) == EvalSource(w, SubstSource(source, s), e2)
    decreases source
  {
    match source
    case FromName(name) => assert Bound(w, name, s, e1, e2);
    case Subquery(inner) => PipelineMeaning(w, inner, s, e1, e2);
    case _ =>
  }

  /** A pipeline means after substitution what it meant before. */
  lemma {:induction false} PipelineMeaning(w: World, p: Pipeline, s: Subst, e1: Env, e2: Env)
    requires Related(w, FreePipeline(p), s, e1, e2)
    ensures FoldQuery(w, p, e1) == FoldQuery(w, SubstPipeline(p, s), e2)
    decreases p, 1
  {
    SourceMeaning(w, p.source, s, e1, e2);
    var src := EvalSource(w, p.source, e1);
    if src.Ok? {
      OpsMeaning(w, src.value, p.ops, s, e1, e2);
    }
  }

  lemma {:induction false} OpsMeaning(w: World, src: PlanSource, ops: seq<PipeOp>, s: Subst, e1: Env, e2: Env)
    requires Related(w, FreeOps(ops), s, e1, e2)
    ensures FoldOps(w, src, ops, e1) == FoldOps(w, src, SubstOps(ops, s), e2)
    decreases ops, 0
  {
    if ops != [] {
      OpMeaning(w, src, ops[0], s, e1, e2);
      var next := FoldOp(w, src, ops[0], e1);
      assert SubstOps(ops, s)[0] == SubstOp(ops[0], s) && SubstOps(ops, s)[1..] == SubstOps(ops[1..], s);
      if next.Ok? {
        OpsMeaning(w, next.value, ops[1..], s, e1, e2);
      }
    }
  }

  /** The stages that hold a pipeline or a source. */
  predicate HoldsQuery(op: PipeOp) {
    op.Union? || op.Except? || op.Intersect? || op.Join?
  }

  lemma OtherStagesIgnoreNames(w: World, input: PlanSource, op: PipeOp, s: Subst, e1: Env, e2: Env)
    requires !HoldsQuery(op)
    ensures FoldOp(w, input, op, e1) == FoldOp(w, input, SubstOp(op, s), e2)
  {
    SimpleStage(w, input, op, e1);
    SimpleStage(w, input, SubstOp(op, s), e2);
    SubstSimple(w, input, op, s);
  }

  lemma SimpleStage(w: World, input: PlanSource, op: PipeOp, env: Env)
    requires !HoldsQuery(op)
    ensures FoldOp(w, input, op, env) == FoldSimple(w, input, op)
  {
  }

  lemma SubstSimple(w: World, input: PlanSource, op: PipeOp, s: Subst)
    requires !HoldsQuery(op)
    ensures FoldSimple(w, input, SubstOp(op, s)) == FoldSimple(w, input, op) && !HoldsQuery(SubstOp(op, s))
  {
    if !op.Switch? {
      assert SubstOp(op, s) == op;
    }
  }

  lemma SetStageCombines(w: World, input: PlanSource, op: PipeOp, env: Env)
    requires op.Union? || op.Except? || op.Intersect?
    ensures FoldOp(w, input, op, env) == Combine(input, FoldQuery(w, op.sub, env))
  {
  }

  lemma SetStageMeaning(w: World, input: PlanSource, op: PipeOp, s: Subst, e1: Env, e2: Env)
    requires op.Union? || op.Except? || op.Intersect?
    requires FoldQuery(w, op.sub, e1) == FoldQuery(w, SubstPipeline(op.sub, s), e2)
    ensures FoldOp(w, input, op, e1) == FoldOp(w, input, SubstOp(op, s), e2)
  {
    var after := SubstOp(op, s);
    assert after.sub == SubstPipeline(op.sub, s) && (after.Union? || after.Except? || after.Intersect?);
    SetStageCombines(w, input, op, e1);
    SetStageCombines(w, input, after, e2);
  }

  lemma {:induction false} OpMeaning(w: World, input: PlanSource, op: PipeOp, s: Subst, e1: Env, e2: Env)
    requires Related(w, FreeOp(op), s, e1, e2)
    ensures FoldOp(w, input, op, e1) == FoldOp(w, input, SubstOp(op, s), e2)
    decreases op
  {
    if op.Union? || op.Except? || op.Intersect? {
      assert FreeOp(op) == FreePipeline(op.sub);
      PipelineMeaning(w, op.sub, s, e1, e2);
      SetStageMeaning(w, input, op, s, e1, e2);
    } else if op.Join? {
      SourceMeaning(w, op.source, s, e1, e2);
    } else {
      OtherStagesIgnoreNames(w, input, op, s, e1, e2);
    }
  }

  // ---- Parts of a pipeline ----

  lemma {:induction false} FreeOpsConcat(a: seq<PipeOp>, b: seq<PipeOp>)
    ensures FreeOps(a + b) == FreeOps(a) + FreeOps(b)
  {
    if a == [] {
      assert a + b == b;
    } else {
      assert (a + b)[0] == a[0] && (a + b)[1..] == a[1..] + b;
      FreeOpsConcat(a[1..], b);
    }
  }

  lemma {:induction false} SubstOpsConcat(a: seq<PipeOp>, b: seq<PipeOp>, s: Subst)
    ensures SubstOps(a + b, s) == SubstOps(a, s) + SubstOps(b, s)
  {
    if a == [] {
      assert a + b == b;
    } else {
      assert (a + b)[0] == a[0] && (a + b)[1..] == a[1..] + b;
      SubstOpsConcat(a[1..], b, s);
    }
  }

  /** The last stage is in the pipeline's free names, and substitution treats the rest and the last apart. */
  lemma LastStage(p: Pipeline, s: Subst)
    requires p.ops != []
    ensures FreePipeline(p) == FreePipeline(DropLast(p)) + FreeOp(p.ops[|p.ops| - 1])
    ensures SubstPipeline(p, s).ops != []
    ensures DropLast(SubstPipeline(p, s)) == SubstPipeline(DropLast(p), s)
    ensures SubstPipeline(p, s).ops[|p.ops| - 1] == SubstOp(p.ops[|p.ops| - 1], s)
  {
    var init, last := p.ops[..|p.ops| - 1], p.ops[|p.ops| - 1];
    assert p.ops == init + [last];
    FreeOpsConcat(init, [last]);
    SubstOpsConcat(init, [last], s);
    assert SubstOps([last], s) == [SubstOp(last, s)];
    assert FreeOps([last]) == FreeOp(last) + FreeOps([last][1..]);
  }

  lemma {:induction false} ArmParts(arms: seq<SwitchArm>, s: Subst, i: nat)
    requires i < |arms|
    ensures FreeOps(arms[i].ops) <= FreeArms(arms)
    ensures SubstArms(arms, s)[i] == SubstArm(arms[i], s)
  {
    if i > 0 {
      ArmParts(arms[1..], s, i - 1);
    }
  }

  lemma {:induction false} SubstOpAt(ops: seq<PipeOp>, s: Subst, i: nat)
    requires i < |ops|
    ensures SubstOps(ops, s)[i] == SubstOp(ops[i], s)
  {
    if i > 0 {
      SubstOpAt(ops[1..], s, i - 1);
    }
  }

  // ---- Effects ----

  /** Two writes alike in all but the spelling of the query that feeds them. */
  ghost predicate Alike(w: World, x: EffectStmt, e1: Env, y: EffectStmt, e2: Env) {
    && x.verb == y.verb && x.target == y.target && x.returning == y.returning
    && (if x.body.BodyPipeline?
        then y.body.BodyPipeline? && FoldQuery(w, x.body.pipeline, e1) == FoldQuery(w, y.body.pipeline, e2)
        else x.body == y.body)
  }

  lemma AlikeInputs(w: World, x: EffectStmt, e1: Env, y: EffectStmt, e2: Env)
    requires Alike(w, x, e1, y, e2)
    ensures EffectInputSchema(w, x, e1) == EffectInputSchema(w, y, e2)
    ensures Feed(w, x, e1) == Feed(w, y, e2)
  {
  }

  lemma AlikeChecks(w: World, x: EffectStmt, e1: Env, y: EffectStmt, e2: Env, full: string)
    requires Alike(w, x, e1, y, e2)
    ensures CheckFilter(w, x, e1) == CheckFilter(w, y, e2)
    ensures Selector(x, full) == Selector(y, full)
  {
    AlikeInputs(w, x, e1, y, e2);
  }

  lemma AlikePayloads(w: World, x: EffectStmt, e1: Env, y: EffectStmt, e2: Env)
    requires Alike(w, x, e1, y, e2)
    ensures Payload(w, x, e1) == Payload(w, y, e2)
  {
    AlikeInputs(w, x, e1, y, e2);
    if x.body.BodyValues? {
      assert ValuesColumns(w, x, x.body.values, e1) == ValuesColumns(w, y, x.body.values, e2);
    }
  }

  lemma AlikeNodes(w: World, x: EffectStmt, e1: Env, y: EffectStmt, e2: Env, route: (string, Driver, string), feed: Option<PlanSource>, args: Option<RowBatch>, selector: Option<RowBatch>)
    requires Alike(w, x, e1, y, e2)
    ensures GenericWrite(x, feed, route.1, route.0, route.2, args, selector) == GenericWrite(y, feed, route.1, route.0, route.2, args, selector)
  {
  }

  lemma AlikeReturning(w: World, x: EffectStmt, e1: Env, y: EffectStmt, e2: Env, plan: P.Plan)
    requires Alike(w, x, e1, y, e2)
    ensures WithReturning(w, x, e1, plan) == WithReturning(w, y, e2, plan)
  {
    AlikeInputs(w, x, e1, y, e2);
  }

  lemma AlikePlans(w: World, x: EffectStmt, e1: Env, y: EffectStmt, e2: Env, route: (string, Driver, string), feed: Option<PlanSource>, args: Option<RowBatch>, selector: Option<RowBatch>)
    requires Alike(w, x, e1, y, e2)
    ensures PlanFor(w, x, e1, route, feed, args, selector) == PlanFor(w, y, e2, route, feed, args, selector)
  {
    AlikeNodes(w, x, e1, y, e2, route, feed, args, selector);
    AlikeReturning(w, x, e1, y, e2, GenericWrite(x, feed, route.1, route.0, route.2, args, selector));
  }

  lemma AlikeFrom(w: World, x: EffectStmt, e1: Env, y: EffectStmt, e2: Env, checked: Result<(), EvalError>, routed: Result<(string, Driver, string), EvalError>,
      fed: Result<Option<PlanSource>, EvalError>, payload: Result<Option<RowBatch>, EvalError>)
    requires Alike(w, x, e1, y, e2)
    ensures WriteFrom(w, x, e1, checked, routed, fed, payload) == WriteFrom(w, y, e2, checked, routed, fed, payload)
  {
    if checked.Ok? && routed.Ok? && fed.Ok? && payload.Ok? {
      AlikeChecks(w, x, e1, y, e2, routed.value.0);
      var selector := Selector(x, routed.value.0);
      if selector.Ok? {
        AlikePlans(w, x, e1, y, e2, routed.value, fed.value, payload.value, selector.value);
      }
    }
  }

  lemma AlikeWrites(w: World, x: EffectStmt, e1: Env, y: EffectStmt, e2: Env)
    requires Alike(w, x, e1, y, e2)
    ensures EvalWrite(w, x, e1) == EvalWrite(w, y, e2)
  {
    AlikeInputs(w, x, e1, y, e2);
    AlikePayloads(w, x, e1, y, e2);
    AlikeChecks(w, x, e1, y, e2, "");
    AlikeFrom(w, x, e1, y, e2, CheckFilter(w, x, e1), RouteTarget(w, x.target), Feed(w, x, e1), Payload(w, x, e1));
  }

  // ---- Arms and terminal stages ----

  lemma SubstKeepsSupport(arm: SwitchArm, s: Subst)
    ensures ArmOpsSupported(SubstArm(arm, s)) <==> ArmOpsSupported(arm)
  {
    forall i | 0 <= i < |arm.ops|
      ensures ArmOpUnsupported(SubstOps(arm.ops, s)[i], i + 1 == |arm.ops| && arm.write.None?) <==>
              ArmOpUnsupported(arm.ops[i], i + 1 == |arm.ops| && arm.write.None?)
    {
      SubstOpAt(arm.ops, s, i);
    }
  }

  function SubstArm(arm: SwitchArm, s: Subst): SwitchArm {
    SwitchArm(arm.tag, SubstOps(arm.ops, s), arm.write)
  }

  lemma RoutedParts(w: World, source: Pipeline, arm: SwitchArm, s: Subst, e1: Env, e2: Env)
    requires Related(w, FreePipeline(source) + FreeOps(arm.ops), s, e1, e2)
    ensures SubstPipeline(Routed(source, arm), s) == Routed(SubstPipeline(source, s), SubstArm(arm, s))
    ensures Related(w, FreePipeline(Routed(source, arm)), s, e1, e2)
  {
    SubstOpsConcat(source.ops, arm.ops, s);
    FreeOpsConcat(source.ops, arm.ops);
  }

  lemma CallMeaning(w: World, p: Pipeline, call: CallRef, s: Subst, e1: Env, e2: Env)
    requires p.ops != [] && Related(w, FreePipeline(p), s, e1, e2)
    ensures EvalTerminalCall(w, p, call, e1) == EvalTerminalCall(w, SubstPipeline(p, s), call, e2)
  {
    LastStage(p, s);
    PipelineMeaning(w, p, s, e1, e2);
    PipelineMeaning(w, DropLast(p), s, e1, e2);
  }

  lemma ArmWriteMeaning(w: World, p: Pipeline, write: ArmWrite, s: Subst, e1: Env, e2: Env)
    requires Related(w, FreePipeline(p), s, e1, e2)
    ensures ArmWritePlan(w, p, write, e1) == ArmWritePlan(w, SubstPipeline(p, s), write, e2)
  {
    var q := SubstPipeline(p, s);
    PipelineMeaning(w, p, s, e1, e2);
    AlikeWrites(w, EffectStmt(write.verb, write.target, BodyPipeline(p), write.returning), e1,
                EffectStmt(write.verb, write.target, BodyPipeline(q), write.returning), e2);
  }

  lemma ArmOfWrite(w: World, source: Pipeline, arm: SwitchArm, env: Env)
    requires ArmOpsSupported(arm) && arm.write.Some?
    ensures ArmPlan(w, source, arm, env) == ArmWritePlan(w, Routed(source, arm), arm.write.value, env)
  {
  }

  lemma ArmOfCall(w: World, source: Pipeline, arm: SwitchArm, env: Env)
    requires ArmOpsSupported(arm) && arm.write.None? && arm.ops != [] && arm.ops[|arm.ops| - 1].CallOp?
    ensures ArmPlan(w, source, arm, env) ==
            ArmCallPlan(EvalTerminalCall(w, Routed(source, arm), arm.ops[|arm.ops| - 1].call, env))
  {
  }

  lemma ArmMeaningOfWrite(w: World, source: Pipeline, arm: SwitchArm, s: Subst, e1: Env, e2: Env)
    requires Related(w, FreePipeline(source) + FreeOps(arm.ops), s, e1, e2)
    requires ArmOpsSupported(arm) && arm.write.Some?
    ensures ArmPlan(w, source, arm, e1) == ArmPlan(w, SubstPipeline(source, s), SubstArm(arm, s), e2)
  {
    SubstKeepsSupport(arm, s);
    RoutedParts(w, source, arm, s, e1, e2);
    ArmWriteMeaning(w, Routed(source, arm), arm.write.value, s, e1, e2);
    ArmOfWrite(w, source, arm, e1);
    ArmOfWrite(w, SubstPipeline(source, s), SubstArm(arm, s), e2);
  }

  lemma ArmMeaningOfCall(w: World, source: Pipeline, arm: SwitchArm, s: Subst, e1: Env, e2: Env)
    requires Related(w, FreePipeline(source) + FreeOps(arm.ops), s, e1, e2)
    requires ArmOpsSupported(arm) && arm.write.None? && arm.ops != [] && arm.ops[|arm.ops| - 1].CallOp?
    ensures ArmPlan(w, source, arm, e1) == ArmPlan(w, SubstPipeline(source, s), SubstArm(arm, s), e2)
  {
    SubstKeepsSupport(arm, s);
    RoutedParts(w, source, arm, s, e1, e2);
    SubstOpAt(arm.ops, s, |arm.ops| - 1);
    CallMeaning(w, Routed(source, arm), arm.ops[|arm.ops| - 1].call, s, e1, e2);
    ArmOfCall(w, source, arm, e1);
    ArmOfCall(w, SubstPipeline(source, s), SubstArm(arm, s), e2);
  }

  lemma ArmMeaning(w: World, source: Pipeline, arm: SwitchArm, s: Subst, e1: Env, e2: Env)
    requires Related(w, FreePipeline(source) + FreeOps(arm.ops), s, e1, e2)
    ensures ArmPlan(w, source, arm, e1) == ArmPlan(w, SubstPipeline(source, s), SubstArm(arm, s), e2)
  {
    if ArmOpsSupported(arm) && arm.write.Some? {
      ArmMeaningOfWrite(w, source, arm, s, e1, e2);
    } else if ArmOpsSupported(arm) && arm.ops != [] && arm.ops[|arm.ops| - 1].CallOp? {
      ArmMeaningOfCall(w, source, arm, s, e1, e2);
    } else {
      ArmMeaningOfNeither(w, source, arm, s, e1, e2);
    }
  }

  lemma ArmOfNeither(w: World, source: Pipeline, arm: SwitchArm, env: Env)
    requires !ArmOpsSupported(arm) || (arm.write.None? && (arm.ops == [] || !arm.ops[|arm.ops| - 1].CallOp?))
    ensures ArmPlan(w, source, arm, env) == Err(if ArmOpsSupported(arm) then SwitchArmNotEffect else SwitchArmOpUnsupported)
  {
  }

  lemma ArmMeaningOfNeither(w: World, source: Pipeline, arm: SwitchArm, s: Subst, e1: Env, e2: Env)
    requires !ArmOpsSupported(arm) || (arm.write.None? && (arm.ops == [] || !arm.ops[|arm.ops| - 1].CallOp?))
    ensures ArmPlan(w, source, arm, e1) == ArmPlan(w, SubstPipeline(source, s), SubstArm(arm, s), e2)
  {
    SubstKeepsSupport(arm, s);
    if arm.ops != [] {
      SubstOpAt(arm.ops, s, |arm.ops| - 1);
    }
    ArmOfNeither(w, source, arm, e1);
    ArmOfNeither(w, SubstPipeline(source, s), SubstArm(arm, s), e2);
  }

  lemma ArmsMeaning(w: World, source: Pipeline, arms: seq<SwitchArm>, s: Subst, e1: Env, e2: Env)
    requires Related(w, FreePipeline(source) + FreeArms(arms), s, e1, e2)
    ensures ArmPlans(w, source, arms, e1) == ArmPlans(w, SubstPipeline(source, s), SubstArms(arms, s), e2)
  {
    forall i | 0 <= i < |arms|
      ensures ArmPlans(w, source, arms, e1)[i] == ArmPlans(w, SubstPipeline(source, s), SubstArms(arms, s), e2)[i]
    {
      ArmParts(arms, s, i);
      ArmMeaning(w, source, arms[i], s, e1, e2);
      ArmPlanAt(w, source, arms, e1, i);
      ArmPlanAt(w, SubstPipeline(source, s), SubstArms(arms, s), e2, i);
    }
  }

  lemma SubstKeepsShape(arms: seq<SwitchArm>, s: Subst)
    ensures SwitchShapeOk(SubstArms(arms, s)) <==> SwitchShapeOk(arms)
  {
    forall i | 0 <= i < |arms|
      ensures SubstArms(arms, s)[i].tag == arms[i].tag
    {
      ArmParts(arms, s, i);
    }
  }

  function SubstStage(stage: SwitchStage, s: Subst): SwitchStage {
    SwitchStage(stage.discriminant, SubstArms(stage.arms, s))
  }

  /** Only the arms' labels and the discriminant of a switch matter beside its source and arm plans. */
  lemma SwitchOverMeaning(stage: SwitchStage, s: Subst, source: Relation, arms: seq<Planned>)
    ensures SwitchOver(stage, source, arms) == SwitchOver(SubstStage(stage, s), source, arms)
  {
    SubstKeepsShape(stage.arms, s);
  }

  lemma SwitchMeaning(w: World, p: Pipeline, stage: SwitchStage, s: Subst, e1: Env, e2: Env)
    requires p.ops != [] && p.ops[|p.ops| - 1] == Switch(stage) && Related(w, FreePipeline(p), s, e1, e2)
    ensures EvalTerminalSwitch(w, p, stage, e1) == EvalTerminalSwitch(w, SubstPipeline(p, s), SubstStage(stage, s), e2)
  {
    LastStage(p, s);
    PipelineMeaning(w, DropLast(p), s, e1, e2);
    ArmsMeaning(w, DropLast(p), stage.arms, s, e1, e2);
    SwitchOverMeaning(stage, s, FoldQuery(w, DropLast(p), e1), ArmPlans(w, DropLast(p), stage.arms, e1));
  }

  predicate IsPlain(p: Pipeline) {
    p.ops == [] || (!p.ops[|p.ops| - 1].CallOp? && !p.ops[|p.ops| - 1].Switch?)
  }

  lemma PlainQuery(w: World, p: Pipeline, env: Env)
    requires IsPlain(p)
    ensures EvalQuery(w, p, env) == AsRelation(FoldQuery(w, p, env))
  {
  }

  lemma CallQuery(w: World, p: Pipeline, env: Env)
    requires p.ops != [] && p.ops[|p.ops| - 1].CallOp?
    ensures EvalQuery(w, p, env) == EvalTerminalCall(w, p, p.ops[|p.ops| - 1].call, env)
  {
  }

  lemma SwitchQuery(w: World, p: Pipeline, env: Env)
    requires p.ops != [] && p.ops[|p.ops| - 1].Switch?
    ensures EvalQuery(w, p, env) == EvalTerminalSwitch(w, p, p.ops[|p.ops| - 1].stage, env)
  {
  }

  lemma PlainAgree(w: World, p: Pipeline, e1: Env, q: Pipeline, e2: Env)
    requires IsPlain(p) && IsPlain(q) && FoldQuery(w, p, e1) == FoldQuery(w, q, e2)
    ensures EvalQuery(w, p, e1) == EvalQuery(w, q, e2)
  {
    PlainQuery(w, p, e1);
    PlainQuery(w, q, e2);
  }

  lemma CallsAgree(w: World, p: Pipeline, e1: Env, q: Pipeline, e2: Env, call: CallRef)
    requires p.ops != [] && p.ops[|p.ops| - 1] == CallOp(call)
    requires q.ops != [] && q.ops[|q.ops| - 1] == CallOp(call)
    requires EvalTerminalCall(w, p, call, e1) == EvalTerminalCall(w, q, call, e2)
    ensures EvalQuery(w, p, e1) == EvalQuery(w, q, e2)
  {
    CallQuery(w, p, e1);
    CallQuery(w, q, e2);
  }

  lemma SwitchesAgree(w: World, p: Pipeline, e1: Env, q: Pipeline, e2: Env, x: SwitchStage, y: SwitchStage)
    requires p.ops != [] && p.ops[|p.ops| - 1] == Switch(x)
    requires q.ops != [] && q.ops[|q.ops| - 1] == Switch(y)
    requires EvalTerminalSwitch(w, p, x, e1) == EvalTerminalSwitch(w, q, y, e2)
    ensures EvalQuery(w, p, e1) == EvalQuery(w, q, e2)
  {
    SwitchQuery(w, p, e1);
    SwitchQuery(w, q, e2);
  }

  /** Substitution keeps what kind of stage a pipeline ends in. */
  lemma SubstKeepsEnding(p: Pipeline, q: Pipeline, s: Subst)
    requires q == SubstPipeline(p, s)
    ensures IsPlain(q) <==> IsPlain(p)
    ensures p.ops != [] ==> q.ops != [] && q.ops[|q.ops| - 1] == SubstOp(p.ops[|p.ops| - 1], s)
  {
    if p.ops != [] {
      LastStage(p, s);
    }
  }

  lemma QueryMeaningOfRelation(w: World, p: Pipeline, q: Pipeline, s: Subst, e1: Env, e2: Env)
    requires IsPlain(p) && q == SubstPipeline(p, s) && Related(w, FreePipeline(p), s, e1, e2)
    ensures EvalQuery(w, p, e1) == EvalQuery(w, q, e2)
  {
    SubstKeepsEnding(p, q, s);
    PipelineMeaning(w, p, s, e1, e2);
    PlainAgree(w, p, e1, q, e2);
  }

  lemma QueryMeaningOfCall(w: World, p: Pipeline, q: Pipeline, call: CallRef, s: Subst, e1: Env, e2: Env)
    requires p.ops != [] && p.ops[|p.ops| - 1] == CallOp(call)
    requires q == SubstPipeline(p, s) && Related(w, FreePipeline(p), s, e1, e2)
    ensures EvalQuery(w, p, e1) == EvalQuery(w, q, e2)
  {
    SubstKeepsEnding(p, q, s);
    CallMeaning(w, p, call, s, e1, e2);
    CallsAgree(w, p, e1, q, e2, call);
  }

  lemma QueryMeaningOfSwitch(w: World, p: Pipeline, q: Pipeline, stage: SwitchStage, s: Subst, e1: Env, e2: Env)
    requires p.ops != [] && p.ops[|p.ops| - 1] == Switch(stage)
    requires q == SubstPipeline(p, s) && Related(w, FreePipeline(p), s, e1, e2)
    ensures EvalQuery(w, p, e1) == EvalQuery(w, q, e2)
  {
    SubstKeepsEnding(p, q, s);
    SwitchMeaning(w, p, stage, s, e1, e2);
    SwitchesAgree(w, p, e1, q, e2, stage, SubstStage(stage, s));
  }

  lemma QueryMeaning(w: World, p: Pipeline, s: Subst, e1: Env, e2: Env)
    requires Related(w, FreePipeline(p), s, e1, e2)
    ensures EvalQuery(w, p, e1) == EvalQuery(w, SubstPipeline(p, s), e2)
  {
    if IsPlain(p) {
      QueryMeaningOfRelation(w, p, SubstPipeline(p, s), s, e1, e2);
    } else if p.ops[|p.ops| - 1].CallOp? {
      QueryMeaningOfCall(w, p, SubstPipeline(p, s), p.ops[|p.ops| - 1].call, s, e1, e2);
    } else {
      QueryMeaningOfSwitch(w, p, SubstPipeline(p, s), p.ops[|p.ops| - 1].stage, s, e1, e2);
    }
  }

  lemma EffectMeaning(w: World, effect: EffectStmt, s: Subst, e1: Env, e2: Env)
    requires Related(w, FreeEffect(effect), s, e1, e2)
    ensures EvalWrite(w, effect, e1) == EvalWrite(w, SubstEffect(effect, s), e2)
  {
    if effect.body.BodyPipeline? {
      PipelineMeaning(w, effect.body.pipeline, s, e1, e2);
    }
    AlikeWrites(w, effect, e1, SubstEffect(effect, s), e2);
  }

  // ---- What a substitution does not touch ----

  lemma {:induction false} SubstUnusedSource(source: Source, s: Subst)
    requires FreeSource(source) !! s.Keys
    ensures SubstSource(source, s) == source
    decreases source
  {
    if source.Subquery? {
      SubstUnused(source.inner, s);
    } else if source.FromName? {
      assert source.name in FreeSource(source);
    }
  }

  lemma {:induction false} SubstUnused(p: Pipeline, s: Subst)
    requires FreePipeline(p) !! s.Keys
    ensures SubstPipeline(p, s) == p
    decreases p, 1
  {
    SubstUnusedSource(p.source, s);
    SubstUnusedOps(p.ops, s);
  }

  lemma {:induction false} SubstUnusedOps(ops: seq<PipeOp>, s: Subst)
    requires FreeOps(ops) !! s.Keys
    ensures SubstOps(ops, s) == ops
    decreases ops, 0
  {
    if ops != [] {
      SubstUnusedOp(ops[0], s);
      SubstUnusedOps(ops[1..], s);
    }
  }

  lemma {:induction false} SubstUnusedOp(op: PipeOp, s: Subst)
    requires FreeOp(op) !! s.Keys
    ensures SubstOp(op, s) == op
    decreases op
  {
    match op
    case Union(sub) => SubstUnused(sub, s);
    case Except(sub) => SubstUnused(sub, s);
    case Intersect(sub) => SubstUnused(sub, s);
    case Join(source, _) => SubstUnusedSource(source, s);
    case Switch(stage) => SubstUnusedArms(stage.arms, s);
    case _ =>
  }

  lemma {:induction false} SubstUnusedArms(arms: seq<SwitchArm>, s: Subst)
    requires FreeArms(arms) !! s.Keys
    ensures SubstArms(arms, s) == arms
    decreases arms, 0
  {
    if arms != [] {
      SubstUnusedOps(arms[0].ops, s);
      SubstUnusedArms(arms[1..], s);
    }
  }

  /** A pipeline depends on its free names only. */
  lemma FreeNamesDecide(w: World, p: Pipeline, e1: Env, e2: Env)
    requires forall n | n in FreePipeline(p) :: (n in e1 <==> n in e2) && (n in e1 ==> e1[n] == e2[n])
    ensures FoldQuery(w, p, e1) == FoldQuery(w, p, e2)
  {
    SubstUnused(p, map[]);
    PipelineMeaning(w, p, map[], e1, e2);
  }

  // ---- Statements ----

  /** Going under a `LET` keeps names related when it captures nothing. */
  lemma UnderBinder(w: World, name: string, rel: PlanSource, names: set<string>, s: Subst, e1: Env, e2: Env)
    requires Related(w, names - {name}, s, e1, e2)
    requires forall n | n in s && n in names && n != name :: name !in FreePipeline(s[n])
    ensures Related(w, names, s - {name}, e1[name := rel], e2[name := rel])
  {
    forall n | n in names
      ensures Bound(w, n, s - {name}, e1[name := rel], e2[name := rel])
    {
      if n != name {
        assert n in names - {name} && Bound(w, n, s, e1, e2);
        if n in s {
          FreeNamesDecide(w, s[n], e2, e2[name := rel]);
        }
      }
    }
  }

  lemma LetMeaning(w: World, name: string, value: Statement, body: Statement, env: Env)
    ensures EvalInner(w, Let(name, value, body), env) ==
            match EvalInner(w, value, env)
            case Err(e) => Evaluated.Err(e)
            case Ok(Effects(_)) => Evaluated.Err(NonLiteralValues)
            case Ok(Relation(rel)) => EvalInner(w, body, env[name := rel])
  {
  }

  /** A statement evaluates after substitution to what it evaluated to before, plans and errors alike. */
  lemma {:induction false} SubstitutionKeepsMeaning(w: World, stmt: Statement, s: Subst, e1: Env, e2: Env)
    requires NoCapture(stmt, s) && Related(w, FreeNames(stmt), s, e1, e2)
    ensures EvalInner(w, stmt, e1) == EvalInner(w, SubstStatement(stmt, s), e2)
    decreases stmt, 0
  {
    match stmt
    case Query(p) => QueryMeaning(w, p, s, e1, e2);
    case Effect(effect) => EffectMeaning(w, effect, s, e1, e2);
    case PlanWrap(_, inner) => SubstitutionKeepsMeaning(w, inner, s, e1, e2);
    case Let(name, value, body) =>
      SubstitutionKeepsMeaning(w, value, s, e1, e2);
      var bound := EvalInner(w, value, e1);
      if bound.Ok? && bound.value.Relation? {
        UnderBinder(w, name, bound.value.rel, FreeNames(body), s, e1, e2);
        SubstitutionKeepsMeaning(w, body, s - {name}, e1[name := bound.value.rel], e2[name := bound.value.rel]);
      }
    case Transaction(members) => SubstitutionInMembers(w, members, s, e1, e2);
    case Ddl(_, _) =>
  }

  lemma {:induction false} SubstitutionInMembers(w: World, members: seq<Statement>, s: Subst, e1: Env, e2: Env)
    requires NoCaptureIn(members, s) && Related(w, FreeInMembers(members), s, e1, e2)
    ensures MemberPlans(w, members, e1) == MemberPlans(w, SubstMembers(members, s), e2)
    decreases members, 1
  {
    if members != [] {
      SubstitutionKeepsMeaning(w, members[0], s, e1, e2);
      SubstitutionInMembers(w, members[1..], s, e1, e2);
    }
  }

  lemma BindingInlines(w: World, x: string, v: Pipeline, rel: PlanSource, body: Statement, env: Env)
    requires FoldQuery(w, v, env) == Ok(rel) && NoCapture(body, map[x := v])
    ensures EvalInner(w, body, env[x := rel]) == EvalInner(w, SubstStatement(body, map[x := v]), env)
  {
    assert Related(w, FreeNames(body), map[x := v], env[x := rel], env);
    SubstitutionKeepsMeaning(w, body, map[x := v], env[x := rel], env);
  }

  /** The relation a value is, if it is one. */
  predicate IsRelation(v: Evaluated, r: Relation) {
    v.Ok? && v.value.Relation? ==> r == Ok(v.value.rel)
  }

  lemma RelationStays(r: Relation)
    ensures IsRelation(AsRelation(r), r)
  {
  }

  lemma PlanIsNoRelation(plan: Planned, r: Relation)
    ensures IsRelation(AsPlan(plan), r)
  {
  }

  lemma CallOverIsWhole(w: World, call: CallRef, whole: Relation, source: Relation)
    ensures IsRelation(CallOver(w, call, whole, source), whole)
  {
    var lowered := Resolver.LowerCall(w.mounts, call);
    if lowered.Ok? {
      RelationStays(whole);
      PlanIsNoRelation(EffectCall(w, call, lowered.value, source), whole);
    }
  }

  lemma SwitchIsNoRelation(stage: SwitchStage, source: Relation, arms: seq<Planned>, r: Relation)
    ensures IsRelation(SwitchOver(stage, source, arms), r)
  {
  }

  /** A query that evaluates to a relation evaluates to its fold. */
  lemma RelationIsFold(w: World, p: Pipeline, env: Env)
    ensures IsRelation(EvalQuery(w, p, env), FoldQuery(w, p, env))
  {
    if IsPlain(p) {
      PlainQuery(w, p, env);
      RelationStays(FoldQuery(w, p, env));
    } else if p.ops[|p.ops| - 1].CallOp? {
      CallQuery(w, p, env);
      CallOverIsWhole(w, p.ops[|p.ops| - 1].call, FoldQuery(w, p, env), FoldQuery(w, DropLast(p), env));
    } else {
      SwitchQuery(w, p, env);
      SwitchIsNoRelation(p.ops[|p.ops| - 1].stage, FoldQuery(w, DropLast(p), env), ArmPlans(w, DropLast(p), p.ops[|p.ops| - 1].stage.arms, env), FoldQuery(w, p, env));
    }
  }

  /**
   Inlining: a `LET` that binds a query is its body with the query written out at every free use of the
   name, through shadowing, set operations, effect bodies, switches, blocks and terminal calls.
   */
  lemma LetInlines(w: World, x: string, v: Pipeline, body: Statement, env: Env)
    requires EvalInner(w, Query(v), env).Ok? && EvalInner(w, Query(v), env).value.Relation?
    requires NoCapture(body, map[x := v])
    ensures EvalInner(w, Let(x, Query(v), body), env) == EvalInner(w, SubstStatement(body, map[x := v]), env)
  {
    var rel := EvalInner(w, Query(v), env).value.rel;
    RelationIsFold(w, v, env);
    BindingInlines(w, x, v, rel, body, env);
    LetMeaning(w, x, Query(v), body, env);
  }

  /** `FROM n` in a scope that binds `n`. */
  lemma NamedQuery(w: World, n: string, env: Env)
    requires n in env
    ensures EvalInner(w, Query(Pipeline(FromName(n), [])), env) == Ok(EvalValue.Relation(env[n]))
  {
    PlainQuery(w, Pipeline(FromName(n), []), env);
  }

  /** The proviso is needed: `LET x = FROM y; LET y = …; FROM x` is not `LET y = …; FROM (FROM y)`. */
  lemma CaptureChangesMeaning(w: World, outer: PlanSource)
    ensures var v, inner := Pipeline(FromName("y"), []), Pipeline(FromValues(ValuesClause(None, [])), []);
            var body := Let("y", Query(inner), Query(Pipeline(FromName("x"), [])));
            && !NoCapture(body, map["x" := v])
            && EvalInner(w, Let("x", Query(v), body), map["y" := outer]) == Ok(EvalValue.Relation(outer))
            && EvalInner(w, SubstStatement(body, map["x" := v]), map["y" := outer]) ==
               Ok(EvalValue.Relation(ValuesRel(ValuesSchema(ValuesClause(None, [])))))
  {
    var v, inner, env := Pipeline(FromName("y"), []), Pipeline(FromValues(ValuesClause(None, [])), []), map["y" := outer];
    var use := Query(Pipeline(FromName("x"), []));
    var rebound := ValuesRel(ValuesSchema(ValuesClause(None, [])));
    CaptureIsSeen(v, inner);
    NamedQuery(w, "y", env);
    LetMeaning(w, "x", Query(v), Let("y", Query(inner), use), env);
    EmptyValues(w, env["x" := outer]);
    LetMeaning(w, "y", Query(inner), use, env["x" := outer]);
    NamedQuery(w, "x", env["x" := outer]["y" := rebound]);
    EmptyValues(w, env);
    LetMeaning(w, "y", Query(inner), Query(Pipeline(Subquery(v), [])), env);
    NamedSubquery(w, "y", env["y" := rebound]);
  }

  lemma EmptyValues(w: World, env: Env)
    ensures EvalInner(w, Query(Pipeline(FromValues(ValuesClause(None, [])), [])), env) ==
            Ok(EvalValue.Relation(ValuesRel(ValuesSchema(ValuesClause(None, [])))))
  {
    PlainQuery(w, Pipeline(FromValues(ValuesClause(None, [])), []), env);
  }

  lemma NamedSubquery(w: World, n: string, env: Env)
    requires n in env
    ensures EvalInner(w, Query(Pipeline(Subquery(Pipeline(FromName(n), [])), [])), env) == Ok(EvalValue.Relation(env[n]))
  {
    PlainQuery(w, Pipeline(Subquery(Pipeline(FromName(n), [])), []), env);
    assert EvalSource(w, FromName(n), env) == Ok(env[n]);
    assert FoldQuery(w, Pipeline(FromName(n), []), env) == Ok(env[n]);
    assert EvalSource(w, Subquery(Pipeline(FromName(n), [])), env) == Ok(env[n]);
  }

  lemma CaptureIsSeen(v: Pipeline, inner: Pipeline)
    requires v == Pipeline(FromName("y"), []) && inner == Pipeline(FromValues(ValuesClause(None, [])), [])
    ensures var body := Let("y", Query(inner), Query(Pipeline(FromName("x"), [])));
            && !NoCapture(body, map["x" := v])
            && SubstStatement(body, map["x" := v]) == Let("y", Query(inner), Query(Pipeline(Subquery(v), [])))
  {
    var use := Pipeline(FromName("x"), []);
    assert "x" in FreePipeline(use) && "y" in FreePipeline(v);
    var body := Let("y", Query(inner), Query(use));
    var s: Subst := map["x" := v];
    assert "x" in FreeNames(Query(use)) && "x" in s && "x" != "y";
    assert s - {"y"} == s;
    assert SubstSource(FromName("x"), s) == Subquery(v);
    assert SubstPipeline(use, s) == Pipeline(Subquery(v), []);
    assert SubstPipeline(inner, s) == inner;
  }
}
