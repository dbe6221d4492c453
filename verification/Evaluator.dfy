/** Statements to relations and effect plans. */
module Evaluator {
  import opened Wrappers
  import opened Types
  import opened Ast
  import opened Errors
  import opened Paths
  import opened Registry
  import opened Relations
  import Lambda
  import Resolver
  import WriteFilter
  import P = Plan

  datatype EvalValue = Relation(rel: PlanSource) | Effects(plan: P.Plan)

  type Planned = Result<P.Plan, EvalError>

  type Evaluated = Result<EvalValue, EvalError>

  /** The path a relation is read from; a literal relation has none. */
  function SourceTarget(rel: PlanSource): P.Target {
    match rel
    case Scan(driver, path, _) => P.Target(driver, path)
    case ValuesRel(_) => P.Target("", "")
    case SetOp(lhs, _, _) => SourceTarget(lhs)
    case Joined(lhs, _, _) => SourceTarget(lhs)
    case Filter(input) => SourceTarget(input)
    case Shape(input) => SourceTarget(input)
    case Project(input, _) => SourceTarget(input)
    case Extended(input, _) => SourceTarget(input)
    case Expanded(input, _) => SourceTarget(input)
    case Coded(input, _, _) => SourceTarget(input)
    case Transformed(input, _) => SourceTarget(input)
  }

  // ---- Literal payloads ----

  /** A constant cell: a literal, a keyword constant, or an array or struct of constants. */
  function LiteralValue(e: Expr): (r: Result<Value, EvalError>)
    ensures r.Err? ==> r.error.NonLiteralValues?
    decreases e, 0
  {
    match e
    case Lit(lit) => Ok(Lambda.LiteralToValue(lit))
    case Col(name) => if Lambda.KeywordConst(name).Some? then Ok(Lambda.KeywordConst(name).value) else Err(NonLiteralValues)
    case ArrayOf(elems) =>
      var items :- LiteralValues(elems);
      Ok(Array(items))
    case StructOf(inits) =>
      var fields :- LiteralFields(inits);
      Ok(Struct(fields))
    case _ => Err(NonLiteralValues)
  }

  function LiteralValues(es: seq<Expr>): (r: Result<seq<Value>, EvalError>)
    ensures r.Err? ==> r.error.NonLiteralValues?
    ensures r.Ok? ==> |r.value| == |es|
    decreases es, 1
  {
    if es == [] then Ok([])
    else
      var v :- LiteralValue(es[0]);
      var rest :- LiteralValues(es[1..]);
      Ok([v] + rest)
  }

  function LiteralFields(inits: seq<FieldInit>): (r: Result<seq<Field>, EvalError>)
    ensures r.Err? ==> r.error.NonLiteralValues?
    decreases inits, 1
  {
    if inits == [] then Ok([])
    else
      var v :- LiteralValue(inits[0].init);
      var rest :- LiteralFields(inits[1..]);
      Ok([Field(inits[0].name, v)] + rest)
  }

  function LiteralRows(rows: seq<seq<Expr>>): (r: Result<seq<Row>, EvalError>)
    ensures r.Err? ==> r.error.NonLiteralValues?
    ensures r.Ok? ==> |r.value| == |rows|
  {
    if rows == [] then Ok([])
    else
      var cells :- LiteralValues(rows[0]);
      var rest :- LiteralRows(rows[1..]);
      Ok([Row(cells)] + rest)
  }

  /** The relation an effect types against: its sub-pipeline's, or its target's description. */
  function EffectInputSchema(w: World, effect: EffectStmt, env: Env): Result<Schema, EvalError> {
    if effect.body.BodyPipeline? then
      var rel :- FoldQuery(w, effect.body.pipeline, env);
      Ok(rel.SchemaOf())
    else
      var full := Render(SegmentNames(effect.target.segments));
      match ResolvePath(w.mounts, full)
      case None => Err(UnroutedPath(full))
      case Some((driver, sub)) => Ok(DescribeSchema(driver, VfsPath(driver, sub)))
  }

  function ValuesColumns(w: World, effect: EffectStmt, values: ValuesClause, env: Env): seq<Column> {
    match values.columns
    case Some(names) => seq(|names|, i requires 0 <= i < |names| => NewColumn(names[i], TUnknown, true))
    case None =>
      var width := if values.rows == [] then 0 else |values.rows[0]|;
      var described := match EffectInputSchema(w, effect, env) case Ok(s) => s.columns case Err(_) => [];
      seq(width, i requires 0 <= i < width =>
        if i < |described| then described[i] else NewColumn("col" + Digits(i), TUnknown, true))
  }

  function ValuesBatch(w: World, effect: EffectStmt, values: ValuesClause, env: Env): (r: Result<RowBatch, EvalError>)
    ensures r.Err? ==> r.error.NonLiteralValues?
  {
    var rows :- LiteralRows(values.rows);
    Ok(RowBatch(Schema(ValuesColumns(w, effect, values, env)), rows))
  }

  function SetBatch(asgns: seq<Assignment>): (r: Result<RowBatch, EvalError>)
    ensures r.Err? ==> r.error.NonLiteralValues?
  {
    if asgns == [] then Ok(EMPTY_BATCH)
    else
      var cells :- LiteralValues(Resolver.AssignedExprs(asgns));
      Ok(RowBatch(Schema(seq(|asgns|, i requires 0 <= i < |asgns| => NewColumn(asgns[i].name, TUnknown, true))), [Row(cells)]))
  }

  /** The one row of a call's arguments, each under its own label or its parameter's name. */
  function CallBatch(args: seq<CallArg>, params: seq<string>): (r: Result<RowBatch, EvalError>)
    requires |args| <= |params|
    ensures r.Err? ==> r.error.NonLiteralValues?
  {
    var cells :- LiteralValues(seq(|args|, i requires 0 <= i < |args| => args[i].value));
    var cols := seq(|args|, i requires 0 <= i < |args| =>
      NewColumn(if args[i].name.Some? then args[i].name.value else params[i], TUnknown, true));
    Ok(RowBatch(Schema(cols), [Row(cells)]))
  }

  // ---- Writes ----

  function KindFor(verb: EffectVerb): P.EffectKind {
    match verb
    case Insert => P.InsertRows
    case Upsert => P.UpsertRows
    case Update => P.UpdateRows
    case Remove => P.RemoveRows
  }

  function WithSelector(node: P.EffectNode, selector: Option<RowBatch>): P.EffectNode {
    node.(selector := if selector.Some? && selector.value.schema.columns == [] then None else selector)
  }

  function ReadNode(id: nat, rel: PlanSource): P.EffectNode {
    P.NewNode(id, P.Read, SourceTarget(rel))
  }

  /** The write filter of an update or removal type-checks against a described target. */
  function CheckFilter(w: World, effect: EffectStmt, env: Env): (r: Result<(), EvalError>)
    ensures r.Err? ==> !r.error.Resolve?
  {
    if w.std.Some? && effect.body.BodySetWhere? && effect.body.filter.Some? then
      match EffectInputSchema(w, effect, env)
      case Ok(schema) => TypecheckPredicate(w, effect.body.filter.value, schema)
      case Err(_) => Ok(())
    else Ok(())
  }

  /** The canonical path a write addresses and the driver it routes to. */
  function RouteTarget(w: World, target: PathExpr): (r: Result<(string, Driver, string), EvalError>)
    ensures r.Err? ==> !r.error.Resolve?
    ensures r.Ok? ==> exists m :: m in w.mounts.table && w.mounts.table[m] == r.value.1
  {
    if HasSelection(target.segments) then Err(SelectionNotLowered(target))
    else
      match CanonicalizeHostPath(w.mounts, Render(SegmentNames(target.segments)))
      case Err(e) => Err(HostScope(e))
      case Ok(full) =>
        match ResolvePath(w.mounts, full)
        case None => Err(UnroutedPath(full))
        case Some((driver, sub)) => RoutedDriverIsMounted(w.mounts, full); Ok((full, driver, sub))
  }

  lemma RoutedDriverIsMounted(mounts: Mounts, path: string)
    requires ResolvePath(mounts, path).Some?
    ensures exists m :: m in mounts.table && mounts.table[m] == ResolvePath(mounts, path).value.0
  {
    var service := if LeadingSegment(path) == "hosts" then PeelScope(path).value.service else path;
    assert ResolvePath(mounts, path) == ResolveServicePath(mounts, service);
    assert BestMount(mounts.table, service).value in mounts.table;
  }

  /** What the effect writes: its literal rows, if it carries any. */
  function Payload(w: World, effect: EffectStmt, env: Env): (r: Result<Option<RowBatch>, EvalError>)
    ensures r.Err? ==> !r.error.Resolve?
  {
    match effect.body
    case BodyValues(values) =>
      var batch :- ValuesBatch(w, effect, values, env);
      Ok(Some(batch))
    case BodySetWhere(asgns, _) =>
      var batch :- SetBatch(asgns);
      Ok(Some(batch))
    case BodyPipeline(_) => Ok(None)
  }

  function Selector(effect: EffectStmt, full: string): (r: Result<Option<RowBatch>, EvalError>)
    ensures r.Err? ==> !r.error.Resolve?
  {
    if effect.body.BodySetWhere? && effect.body.filter.Some? then
      var batch :- WriteFilter.WhereSelector(effect.body.filter.value, full);
      Ok(Some(batch))
    else Ok(None)
  }

  /** The write's own node: payload, selector, the estimate, and the driver's irreversibility on top of the verb's. */
  function WriteNode(id: nat, effect: EffectStmt, driver: Driver, full: string, sub: string, args: Option<RowBatch>, selector: Option<RowBatch>): P.EffectNode {
    var node := P.NewNode(id, KindFor(effect.verb), P.Target(driver.id, VfsPath(driver, sub)));
    var withArgs := if args.Some? then node.(args := args.value) else node;
    var withSelector := if selector.Some? then WithSelector(withArgs, selector) else withArgs;
    var estimated := withSelector.(affected := if effect.body.BodyValues? then P.Exactly(|effect.body.values.rows|) else P.Unestimated);
    estimated.(irreversible := estimated.irreversible || driver.writeIrreversible(full, effect.verb))
  }

  /** The generic plan: the write alone, or hanging off the read that feeds it. */
  function GenericWrite(effect: EffectStmt, feed: Option<PlanSource>, driver: Driver, full: string, sub: string, args: Option<RowBatch>, selector: Option<RowBatch>): P.Plan {
    match feed
    case None => P.Plan([WriteNode(0, effect, driver, full, sub, args, selector)], [], None)
    case Some(rel) => P.Plan([ReadNode(0, rel), WriteNode(1, effect, driver, full, sub, args, selector)], [(0, 1)], None)
  }

  function WithReturning(w: World, effect: EffectStmt, env: Env, plan: P.Plan): Planned {
    match effect.returning
    case None => Ok(plan)
    case Some(projs) =>
      var input :- EffectInputSchema(w, effect, env);
      var schema :- ProjectSchema(w, input, projs, false);
      Ok(plan.(returning := Some(schema)))
  }

  /** The relation that feeds the write, if its body is a pipeline. */
  function Feed(w: World, effect: EffectStmt, env: Env): Result<Option<PlanSource>, EvalError> {
    if !effect.body.BodyPipeline? then Ok(None)
    else
      var rel :- FoldQuery(w, effect.body.pipeline, env);
      Ok(Some(rel))
  }

  /** A driver that plans this write itself has the last word; otherwise the plan is the generic one. */
  function PlanFor(w: World, effect: EffectStmt, env: Env, route: (string, Driver, string), feed: Option<PlanSource>, args: Option<RowBatch>, selector: Option<RowBatch>): Planned {
    var (full, driver, sub) := route;
    var own := if args.Some? then driver.planWrite(full, effect.verb, args.value, selector) else None;
    match own
    case Some(Ok(plan)) => Ok(plan)
    case Some(Err(detail)) => Err(DriverWrite(detail))
    case None => WithReturning(w, effect, env, GenericWrite(effect, feed, driver, full, sub, args, selector))
  }

  /** The checks in the program's order; the first failure wins. */
  function WriteFrom(w: World, effect: EffectStmt, env: Env, checked: Result<(), EvalError>, routed: Result<(string, Driver, string), EvalError>,
      fed: Result<Option<PlanSource>, EvalError>, payload: Result<Option<RowBatch>, EvalError>): Planned {
    var _ :- checked;
    var route :- routed;
    var feed :- fed;
    var args :- payload;
    var selector :- Selector(effect, route.0);
    PlanFor(w, effect, env, route, feed, args, selector)
  }

  function EvalWrite(w: World, effect: EffectStmt, env: Env): Planned {
    WriteFrom(w, effect, env, CheckFilter(w, effect, env), RouteTarget(w, effect.target), Feed(w, effect, env), Payload(w, effect, env))
  }

  /** The builder's steps for the generic plan. */
  method BuildWrite(effect: EffectStmt, feed: Option<PlanSource>, driver: Driver, full: string, sub: string, args: Option<RowBatch>, selector: Option<RowBatch>)
      returns (plan: P.Plan)
    ensures plan == GenericWrite(effect, feed, driver, full, sub, args, selector)
  {
    var b := new P.PlanBuilder();
    var parent: Option<nat> := None;
    if feed.Some? {
      var readId := b.NextId();
      var pushed := b.Push(ReadNode(readId, feed.value));
      parent := Some(pushed);
    }
    var id := b.NextId();
    var _ := b.Push(WriteNode(id, effect, driver, full, sub, args, selector));
    if parent.Some? {
      b.DependsOn(id, parent.value);
    }
    plan := b.plan;
  }

  // ---- Terminal calls ----

  function DropLast(p: Pipeline): Pipeline
    requires p.ops != []
  {
    Pipeline(p.source, p.ops[..|p.ops| - 1])
  }

  /** The routed driver may reject the call at plan time. */
  function DriverAccepts(w: World, target: P.Target, qualified: string, args: RowBatch): (r: Result<(), EvalError>)
    ensures r.Err? ==> r.error.DriverWrite?
  {
    match ResolvePath(w.mounts, target.path)
    case None => Ok(())
    case Some((driver, sub)) =>
      match driver.planCall(VfsPath(driver, sub), qualified, args)
      case Some(Err(detail)) => Err(DriverWrite(detail))
      case _ => Ok(())
  }

  function CallNode(lowering: Resolver.CallLowering, target: P.Target, args: RowBatch): P.EffectNode {
    P.NewNode(0, P.CallProc(lowering.resolved.Qualified()), target).(args := args, irreversible := lowering.resolved.irreversible)
  }

  function CallPlan(lowering: Resolver.CallLowering, target: P.Target, args: RowBatch): P.Plan {
    P.Plan([CallNode(lowering, target, args)], [], None)
  }

  /** An effect call is planned over the relation that feeds it, once its driver accepts it. */
  function EffectCall(w: World, call: CallRef, lowering: Resolver.CallLowering, source: Relation): Planned
    requires |call.args| <= |lowering.params|
  {
    var rel :- source;
    var args :- CallBatch(call.args, lowering.params);
    var _ :- DriverAccepts(w, SourceTarget(rel), lowering.resolved.Qualified(), args);
    Ok(CallPlan(lowering, SourceTarget(rel), args))
  }

  function AsRelation(r: Relation): Evaluated {
    var rel :- r;
    Ok(Relation(rel))
  }

  function AsPlan(r: Planned): Evaluated {
    var plan :- r;
    Ok(Effects(plan))
  }

  /** A row-returning procedure keeps the whole pipeline a relation; an effect procedure is a lone call node. */
  function CallOver(w: World, call: CallRef, whole: Relation, source: Relation): Evaluated {
    match Resolver.LowerCall(w.mounts, call)
    case Err(e) => Err(Resolve(e))
    case Ok(lowering) => if lowering.returnsRows then AsRelation(whole) else AsPlan(EffectCall(w, call, lowering, source))
  }

  function EvalTerminalCall(w: World, p: Pipeline, call: CallRef, env: Env): Evaluated
    requires p.ops != []
  {
    CallOver(w, call, FoldQuery(w, p, env), FoldQuery(w, DropLast(p), env))
  }

  // ---- Sequencing ----

  /** Each plan is shifted past the ids before it and sequenced after them; the first error wins. */
  function Sequence(plans: seq<Planned>, acc: P.Plan, base: nat): Planned
    decreases plans
  {
    if plans == [] then Ok(acc)
    else
      var plan :- plans[0];
      Sequence(plans[1..], P.Then(acc, P.Relabel(plan, base)), base + |plan.nodes|)
  }

  lemma SequenceStop(plans: seq<Planned>, i: nat, acc: P.Plan, base: nat)
    requires i < |plans| && plans[i].Err?
    ensures Sequence(plans[i..], acc, base) == plans[i]
  {
    assert plans[i..][0] == plans[i];
  }

  lemma SequenceEnds(plans: seq<Planned>, acc: P.Plan, base: nat)
    ensures Sequence(plans[|plans|..], acc, base) == Ok(acc)
  {
  }

  lemma SequenceUnfolds(plans: seq<Planned>, first: P.Plan, acc: P.Plan, base: nat, joined: P.Plan, newBase: nat)
    requires plans != [] && plans[0] == Ok(first)
    requires joined == P.Then(acc, P.Relabel(first, base)) && newBase == base + |first.nodes|
    ensures Sequence(plans, acc, base) == Sequence(plans[1..], joined, newBase)
  {
  }

  lemma SequenceStep(plans: seq<Planned>, i: nat, acc: P.Plan, base: nat, joined: P.Plan, newBase: nat)
    requires i < |plans| && plans[i].Ok?
    requires joined == P.Then(acc, P.Relabel(plans[i].value, base)) && newBase == base + |plans[i].value.nodes|
    ensures Sequence(plans[i..], acc, base) == Sequence(plans[i + 1..], joined, newBase)
  {
    assert plans[i..][0] == plans[i] && plans[i..][1..] == plans[i + 1..];
  }

  /** One step of sequencing: shift the next plan past the ids used so far and join it. */
  method Append(done: Option<P.Plan>, next: P.Plan, base: nat) returns (joined: P.Plan, newBase: nat)
    ensures joined == P.Then(if done.Some? then done.value else P.PURE, P.Relabel(next, base))
    ensures newBase == base + |next.nodes|
  {
    var shifted, used := P.RelabelPlan(next, base);
    P.NothingThen(shifted);
    newBase := base + used;
    joined := if done.None? then shifted else P.Then(done.value, shifted);
  }

  // ---- Switch ----

  /** Exactly one `else` arm, written last, and no label twice. */
  predicate SwitchShapeOk(arms: seq<SwitchArm>) {
    && arms != []
    && arms[|arms| - 1].tag.None?
    && forall i, j :: 0 <= i < j < |arms| ==> arms[i].tag != arms[j].tag
  }

  function CountElse(arms: seq<SwitchArm>): (n: nat)
    ensures n <= |arms|
    ensures n == 0 <==> forall i :: 0 <= i < |arms| ==> arms[i].tag.Some?
    ensures n >= 2 <==> exists i, j :: 0 <= i < j < |arms| && arms[i].tag.None? && arms[j].tag.None?
  {
    if arms == [] then 0
    else
      var rest := CountElse(arms[1..]);
      assert forall i :: 0 <= i < |arms| - 1 ==> arms[1..][i] == arms[i + 1];
      assert forall i :: 0 < i < |arms| ==> arms[i] == arms[1..][i - 1];
      (if arms[0].tag.None? then 1 else 0) + rest
  }

  /** The shape check as the program makes it: count the `else` arms, look at the last, collect labels. */
  method ValidateSwitchShape(arms: seq<SwitchArm>) returns (ok: bool)
    ensures ok <==> SwitchShapeOk(arms)
  {
    var elses := CountElse(arms);
    if elses == 0 || elses > 1 || arms[|arms| - 1].tag.Some? {
      return false;
    }
    var seen: set<string> := {};
    for i := 0 to |arms|
      invariant forall s :: s in seen <==> exists j :: 0 <= j < i && arms[j].tag == Some(s)
      invariant forall j, k :: 0 <= j < k < i ==> arms[j].tag != arms[k].tag
    {
      if arms[i].tag.Some? {
        if arms[i].tag.value in seen {
          return false;
        }
        seen := seen + {arms[i].tag.value};
      }
    }
    return true;
  }

  predicate ArmOpUnsupported(op: PipeOp, terminal: bool) {
    || op.Join? || op.Union? || op.Except? || op.Intersect? || op.Expand? || op.Decode? || op.Encode?
    || op.Transform? || op.Switch? || op.Follow? || op.Post?
    || (op.CallOp? && !terminal)
  }

  predicate ArmOpsSupported(arm: SwitchArm) {
    forall i :: 0 <= i < |arm.ops| ==> !ArmOpUnsupported(arm.ops[i], i + 1 == |arm.ops| && arm.write.None?)
  }

  /** The arm's own stages over the shared source. */
  function Routed(source: Pipeline, arm: SwitchArm): Pipeline {
    Pipeline(source.source, source.ops + arm.ops)
  }

  function ArmWritePlan(w: World, routed: Pipeline, write: ArmWrite, env: Env): Planned {
    EvalWrite(w, EffectStmt(write.verb, write.target, BodyPipeline(routed), write.returning), env)
  }

  function ArmCallPlan(called: Evaluated): Planned {
    var v :- called;
    if v.Effects? then Ok(v.plan) else Err(SwitchArmNotEffect)
  }

  /** An arm is its write fed by the routed pipeline, or the pipeline's terminal effect call. */
  function ArmPlan(w: World, source: Pipeline, arm: SwitchArm, env: Env): Planned {
    if !ArmOpsSupported(arm) then Err(SwitchArmOpUnsupported)
    else if arm.write.Some? then ArmWritePlan(w, Routed(source, arm), arm.write.value, env)
    else if arm.ops != [] && arm.ops[|arm.ops| - 1].CallOp? then
      ArmCallPlan(EvalTerminalCall(w, Routed(source, arm), arm.ops[|arm.ops| - 1].call, env))
    else Err(SwitchArmNotEffect)
  }

  function ArmPlans(w: World, source: Pipeline, arms: seq<SwitchArm>, env: Env): (r: seq<Planned>)
    ensures |r| == |arms|
  {
    if arms == [] then [] else [ArmPlan(w, source, arms[0], env)] + ArmPlans(w, source, arms[1..], env)
  }

  lemma {:induction false} ArmPlanAt(w: World, source: Pipeline, arms: seq<SwitchArm>, env: Env, i: nat)
    requires i < |arms|
    ensures ArmPlans(w, source, arms, env)[i] == ArmPlan(w, source, arms[i], env)
  {
    if i > 0 {
      ArmPlanAt(w, source, arms[1..], env, i - 1);
    }
  }

  method LowerArm(w: World, source: Pipeline, arms: seq<SwitchArm>, env: Env, i: nat) returns (r: Planned)
    requires i < |arms|
    ensures r == ArmPlans(w, source, arms, env)[i]
  {
    ArmPlanAt(w, source, arms, env, i);
    r := ArmPlan(w, source, arms[i], env);
  }

  /** Shape first, then the shared source and its discriminant, then the arms in declaration order. */
  function SwitchOver(stage: SwitchStage, source: Relation, arms: seq<Planned>): Evaluated {
    if !SwitchShapeOk(stage.arms) then Err(SwitchShape)
    else
      var rel :- source;
      if rel.SchemaOf().columns != [] && FindColumn(rel.SchemaOf(), stage.discriminant).None? then
        Err(SwitchDiscriminantUnknown(stage.discriminant))
      else
        var plan :- Sequence(arms, P.PURE, 0);
        Ok(Effects(plan))
  }

  function EvalTerminalSwitch(w: World, p: Pipeline, stage: SwitchStage, env: Env): Evaluated
    requires p.ops != []
  {
    SwitchOver(stage, FoldQuery(w, DropLast(p), env), ArmPlans(w, DropLast(p), stage.arms, env))
  }

  /** The arms are lowered one by one and joined in declaration order. */
  method SwitchUnion(w: World, source: Pipeline, arms: seq<SwitchArm>, env: Env) returns (r: Planned)
    requires arms != []
    ensures r == Sequence(ArmPlans(w, source, arms, env), P.PURE, 0)
  {
    ghost var plans := ArmPlans(w, source, arms, env);
    ghost var total := Sequence(plans, P.PURE, 0);
    var union: Option<P.Plan> := None;
    var base: nat := 0;
    var acc := P.PURE;
    assert plans[0..] == plans;
    for i := 0 to |arms|
      invariant acc == if union.Some? then union.value else P.PURE
      invariant i > 0 ==> union.Some?
      invariant total == Sequence(plans[i..], acc, base)
    {
      var plan := LowerArm(w, source, arms, env, i);
      if plan.Err? {
        SequenceStop(plans, i, acc, base);
        return plan;
      }
      var joined, newBase := Append(union, plan.value, base);
      SequenceStep(plans, i, acc, base, joined, newBase);
      acc, base := joined, newBase;
      union := Some(acc);
    }
    SequenceEnds(plans, acc, base);
    return Ok(union.value);
  }

  /** Shape, shared source and discriminant are checked before any arm is lowered. */
  method SwitchLoop(w: World, p: Pipeline, stage: SwitchStage, env: Env) returns (r: Evaluated)
    requires p.ops != []
    ensures r == EvalTerminalSwitch(w, p, stage, env)
  {
    var shape := ValidateSwitchShape(stage.arms);
    if !shape {
      return Err(SwitchShape);
    }
    var rel :- FoldQuery(w, DropLast(p), env);
    if rel.SchemaOf().columns != [] && FindColumn(rel.SchemaOf(), stage.discriminant).None? {
      return Err(SwitchDiscriminantUnknown(stage.discriminant));
    }
    var plan :- SwitchUnion(w, DropLast(p), stage.arms, env);
    return Ok(Effects(plan));
  }

  // ---- Statements ----

  /** A pipeline ending in a call or a switch may be an effect; any other is a relation. */
  function EvalQuery(w: World, p: Pipeline, env: Env): Evaluated {
    if p.ops != [] && p.ops[|p.ops| - 1].CallOp? then EvalTerminalCall(w, p, p.ops[|p.ops| - 1].call, env)
    else if p.ops != [] && p.ops[|p.ops| - 1].Switch? then EvalTerminalSwitch(w, p, p.ops[|p.ops| - 1].stage, env)
    else AsRelation(FoldQuery(w, p, env))
  }

  function EvalInner(w: World, stmt: Statement, env: Env): Evaluated
    decreases stmt, 0
  {
    match stmt
    case Query(p) => EvalQuery(w, p, env)
    case Effect(effect) => AsPlan(EvalWrite(w, effect, env))
    case PlanWrap(_, inner) => EvalInner(w, inner, env)
    case Let(name, value, body) =>
      var bound :- EvalInner(w, value, env);
      if bound.Effects? then Err(NonLiteralValues) else EvalInner(w, body, env[name := bound.rel])
    case Transaction(members) => AsPlan(EvalTransaction(w, members, env))
    case Ddl(_, _) => Ok(Effects(P.PURE))
  }

  /** A transaction holds only effects. */
  function AsEffects(v: Evaluated): Planned {
    match v
    case Ok(Effects(plan)) => Ok(plan)
    case Ok(Relation(_)) => Err(NonLiteralValues)
    case Err(e) => Err(e)
  }

  function MemberPlans(w: World, members: seq<Statement>, env: Env): (r: seq<Planned>)
    ensures |r| == |members|
    decreases members, 1
  {
    if members == [] then [] else [AsEffects(EvalInner(w, members[0], env))] + MemberPlans(w, members[1..], env)
  }

  lemma {:induction false} MemberPlanAt(w: World, members: seq<Statement>, env: Env, i: nat)
    requires i < |members|
    ensures MemberPlans(w, members, env)[i] == AsEffects(EvalInner(w, members[i], env))
  {
    if i > 0 {
      MemberPlanAt(w, members[1..], env, i - 1);
    }
  }

  method LowerMember(w: World, members: seq<Statement>, env: Env, i: nat) returns (r: Planned)
    requires i < |members|
    ensures r == MemberPlans(w, members, env)[i]
  {
    MemberPlanAt(w, members, env, i);
    r := AsEffects(EvalInner(w, members[i], env));
  }

  predicate Irrevocable(node: P.EffectNode) {
    node.irreversible || node.kind.IsInherentlyIrreversible()
  }

  function EvalTransaction(w: World, members: seq<Statement>, env: Env): Planned
    decreases members, 2
  {
    Reversible(Sequence(MemberPlans(w, members, env), P.PURE, 0))
  }

  /** The reversible-only gate over the assembled block. */
  function Reversible(block: Planned): Planned {
    var plan :- block;
    if exists n | n in plan.nodes :: Irrevocable(n) then Err(IrreversibleInTransaction) else Ok(plan)
  }

  /** The members are lowered one by one and joined in source order. */
  method JoinMembers(w: World, members: seq<Statement>, env: Env) returns (r: Planned)
    ensures r == Sequence(MemberPlans(w, members, env), P.PURE, 0)
  {
    ghost var plans := MemberPlans(w, members, env);
    ghost var total := Sequence(plans, P.PURE, 0);
    var plan, nextBase := P.PURE, 0;
    assert plans[0..] == plans;
    for i := 0 to |members|
      invariant total == Sequence(plans[i..], plan, nextBase)
    {
      var member := LowerMember(w, members, env, i);
      if member.Err? {
        SequenceStop(plans, i, plan, nextBase);
        return member;
      }
      var joined, newBase := Append(Some(plan), member.value, nextBase);
      SequenceStep(plans, i, plan, nextBase, joined, newBase);
      plan, nextBase := joined, newBase;
    }
    SequenceEnds(plans, plan, nextBase);
    return Ok(plan);
  }

  /** The walk over the assembled block's nodes. */
  method Gate(plan: P.Plan) returns (r: Planned)
    ensures r == Reversible(Ok(plan))
  {
    for i := 0 to |plan.nodes|
      invariant forall j :: 0 <= j < i ==> !Irrevocable(plan.nodes[j])
    {
      if Irrevocable(plan.nodes[i]) {
        return Err(IrreversibleInTransaction);
      }
    }
    return Ok(plan);
  }

  method TransactionLoop(w: World, members: seq<Statement>, env: Env) returns (r: Planned)
    ensures r == EvalTransaction(w, members, env)
  {
    r := JoinMembers(w, members, env);
    if r.Ok? {
      r := Gate(r.value);
    }
  }
}
