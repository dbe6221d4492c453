/** What every plan the evaluator returns satisfies, and what sequencing means for blocks and switches. */
module EvaluatorPlans {
  import opened Wrappers
  import opened Types
  import opened Ast
  import opened Errors
  import opened Registry
  import opened Relations
  import opened Plan
  import opened Evaluator
  import PlanTopo
  import Resolver

  /** A driver that plans its own writes numbers its nodes from 0 and orders them forward. */
  ghost predicate DriversPlanWell(table: map<string, Driver>) {
    forall m, full, verb, args, selector | m in table ::
      PlansWell(table[m].planWrite(full, verb, args, selector))
  }

  ghost predicate PlansWell(own: Option<Result<Plan, string>>) {
    own.Some? && own.value.Ok? ==> WellFormed(own.value.value)
  }

  ghost predicate PlannedWell(r: Planned) {
    r.Ok? ==> WellFormed(r.value)
  }

  // ---- Sequencing ----

  ghost predicate AllWell(plans: seq<Planned>) {
    forall i :: 0 <= i < |plans| ==> plans[i].Ok? && WellFormed(plans[i].value)
  }

  /** How many ids the planned members use up. */
  function Size(plans: seq<Planned>): nat {
    if plans == [] then 0 else (if plans[0].Ok? then |plans[0].value.nodes| else 0) + Size(plans[1..])
  }

  lemma {:induction false} SequenceAccepts(plans: seq<Planned>, acc: Plan, base: nat)
    ensures Sequence(plans, acc, base).Ok? <==> forall i :: 0 <= i < |plans| ==> plans[i].Ok?
    decreases plans
  {
    if plans != [] {
      assert forall i :: 0 < i < |plans| ==> plans[i] == plans[1..][i - 1];
      if plans[0].Ok? {
        SequenceAccepts(plans[1..], Then(acc, Relabel(plans[0].value, base)), base + |plans[0].value.nodes|);
        assert forall i :: 0 <= i < |plans| - 1 ==> plans[1..][i] == plans[i + 1];
      }
    }
  }

  lemma JoinedIsWellFormed(acc: Plan, own: Plan, next: Plan)
    requires WellFormed(acc) && WellFormed(own) && next == Then(acc, Relabel(own, |acc.nodes|))
    ensures WellFormed(next) && |next.nodes| == |acc.nodes| + |own.nodes|
  {
    RelabelIsWellFormed(own, |acc.nodes|);
    ThenIsWellFormed(acc, Relabel(own, |acc.nodes|));
  }

  lemma SequenceFirst(plans: seq<Planned>, acc: Plan, next: Plan)
    requires plans != [] && plans[0].Ok? && |next.nodes| == |acc.nodes| + |plans[0].value.nodes|
    requires next == Then(acc, Relabel(plans[0].value, |acc.nodes|))
    ensures Sequence(plans, acc, |acc.nodes|) == Sequence(plans[1..], next, |next.nodes|)
  {
    SequenceUnfolds(plans, plans[0].value, acc, |acc.nodes|, next, |next.nodes|);
  }

  /** `p` keeps the nodes of `acc` and their order, and applies everything else after them. */
  ghost predicate Extends(acc: Plan, p: Plan) {
    && WellFormed(p)
    && acc.nodes <= p.nodes
    && (forall x, y :: 0 <= x < |acc.nodes| && 0 <= y < |acc.nodes| ==> (Precedes(p, x, y) <==> Precedes(acc, x, y)))
    && (forall x, y :: 0 <= x < |acc.nodes| <= y < |p.nodes| ==> Precedes(p, x, y))
  }

  lemma JoinedExtends(acc: Plan, own: Plan, joined: Plan)
    requires WellFormed(acc) && WellFormed(own) && joined == Then(acc, Relabel(own, |acc.nodes|))
    ensures Extends(acc, joined)
  {
    JoinedIsWellFormed(acc, own, joined);
    var next := Relabel(own, |acc.nodes|);
    RelabelIsWellFormed(own, |acc.nodes|);
    forall x: nat, y: nat | x < |acc.nodes| && y < |acc.nodes|
      ensures Precedes(joined, x, y) <==> Precedes(acc, x, y)
    {
      ThenKeepsOrder(acc, next, x, y);
    }
    forall x: nat, y: nat | x < |acc.nodes| <= y < |joined.nodes|
      ensures Precedes(joined, x, y)
    {
      ThenSequences(acc, next, x, y);
    }
  }

  lemma ExtendsIsTransitive(a: Plan, b: Plan, c: Plan)
    requires Extends(a, b) && Extends(b, c)
    ensures Extends(a, c)
  {
    forall x: nat, y: nat | x < |a.nodes| <= y < |c.nodes|
      ensures Precedes(c, x, y)
    {
      assert y < |b.nodes| ==> Precedes(b, x, y);
    }
  }

  /** Sequencing more plans keeps what is there, in its order, and puts everything new after it. */
  lemma {:induction false} SequenceExtends(plans: seq<Planned>, acc: Plan)
    requires WellFormed(acc) && AllWell(plans)
    ensures var r := Sequence(plans, acc, |acc.nodes|);
            r.Ok? && Extends(acc, r.value) && |r.value.nodes| == |acc.nodes| + Size(plans)
    decreases plans
  {
    if plans != [] {
      var joined := Then(acc, Relabel(plans[0].value, |acc.nodes|));
      JoinedExtends(acc, plans[0].value, joined);
      JoinedIsWellFormed(acc, plans[0].value, joined);
      SequenceFirst(plans, acc, joined);
      SequenceExtends(plans[1..], joined);
      ExtendsIsTransitive(acc, joined, Sequence(plans[1..], joined, |joined.nodes|).value);
    }
  }

  lemma {:induction false} SequenceConcat(a: seq<Planned>, b: seq<Planned>, acc: Plan)
    requires WellFormed(acc) && AllWell(a) && AllWell(b)
    ensures Sequence(a, acc, |acc.nodes|).Ok?
    ensures Sequence(a + b, acc, |acc.nodes|) ==
            Sequence(b, Sequence(a, acc, |acc.nodes|).value, |Sequence(a, acc, |acc.nodes|).value.nodes|)
    decreases a
  {
    if a == [] {
      assert a + b == b;
    } else {
      assert (a + b)[0] == a[0] && (a + b)[1..] == a[1..] + b;
      var next := Then(acc, Relabel(a[0].value, |acc.nodes|));
      JoinedIsWellFormed(acc, a[0].value, next);
      SequenceFirst(a, acc, next);
      SequenceFirst(a + b, acc, next);
      SequenceConcat(a[1..], b, next);
    }
  }

  /** Everything planned by earlier members comes before everything planned by later ones. */
  lemma EarlierMembersPrecede(a: seq<Planned>, b: seq<Planned>, x: nat, y: nat)
    requires AllWell(a) && AllWell(b)
    requires x < Size(a) <= y < Size(a) + Size(b)
    ensures Sequence(a + b, PURE, 0).Ok? && WellFormed(Sequence(a + b, PURE, 0).value)
    ensures |Sequence(a + b, PURE, 0).value.nodes| == Size(a) + Size(b)
    ensures Precedes(Sequence(a + b, PURE, 0).value, x, y)
  {
    SequenceExtends(a, PURE);
    SequenceConcat(a, b, PURE);
    SequenceExtends(b, Sequence(a, PURE, 0).value);
  }

  /** Joining a plan after `before` places it at `|before.nodes|`, with its own order. */
  lemma JoinedKeepsPlan(before: Plan, own: Plan, joined: Plan, x: nat, y: nat)
    requires WellFormed(before) && WellFormed(own) && x < |own.nodes| && y < |own.nodes|
    requires joined == Then(before, Relabel(own, |before.nodes|))
    ensures joined.nodes[|before.nodes| + x] == own.nodes[x].(id := |before.nodes| + x)
    ensures Precedes(joined, |before.nodes| + x, |before.nodes| + y) <==> Precedes(own, x, y)
  {
    var at := |before.nodes|;
    RelabelIsWellFormed(own, at);
    ThenKeepsOrderOfSecond(before, Relabel(own, at), at + x, at + y);
    RelabelKeepsOrder(own, at, x, y);
  }

  lemma SequenceOfOne(own: Plan, before: Plan, joined: Plan)
    requires WellFormed(before) && WellFormed(own)
    requires joined == Then(before, Relabel(own, |before.nodes|))
    ensures WellFormed(joined)
    ensures Sequence([Ok(own)], before, |before.nodes|) == Ok(joined)
  {
    JoinedIsWellFormed(before, own, joined);
    SequenceFirst([Ok(own)], before, joined);
    assert [Planned.Ok(own)][1..] == [];
  }

  /** A block with a member in the middle: the plan before it, and the plan up to and with it. */
  lemma BlockAround(a: seq<Planned>, own: Plan, b: seq<Planned>) returns (before: Plan, joined: Plan)
    requires AllWell(a) && WellFormed(own) && AllWell(b)
    ensures WellFormed(before) && |before.nodes| == Size(a)
    ensures WellFormed(joined) && joined == Then(before, Relabel(own, |before.nodes|))
    ensures Sequence(a + ([Ok(own)] + b), PURE, 0) == Sequence(b, joined, |joined.nodes|)
  {
    SequenceExtends(a, PURE);
    before := Sequence(a, PURE, 0).value;
    joined := Then(before, Relabel(own, |before.nodes|));
    SequenceOfOne(own, before, joined);
    SequenceConcat([Ok(own)], b, before);
    SequenceConcat(a, [Ok(own)] + b, PURE);
  }

  /** Each member keeps its own nodes, shifted to its place, and exactly its own order among them. */
  lemma MemberKeepsItsPlan(a: seq<Planned>, own: Plan, b: seq<Planned>, x: nat, y: nat)
    requires AllWell(a) && WellFormed(own) && AllWell(b)
    requires x < |own.nodes| && y < |own.nodes|
    ensures var r := Sequence(a + ([Ok(own)] + b), PURE, 0);
            && r.Ok?
            && Size(a) + x < |r.value.nodes|
            && r.value.nodes[Size(a) + x] == own.nodes[x].(id := Size(a) + x)
            && (Precedes(r.value, Size(a) + x, Size(a) + y) <==> Precedes(own, x, y))
  {
    var before, joined := BlockAround(a, own, b);
    SequenceExtends(b, joined);
    JoinedIsWellFormed(before, own, joined);
    JoinedKeepsPlan(before, own, joined, x, y);
  }

  // ---- Single writes and calls ----

  lemma GenericWriteIsWell(w: World, effect: EffectStmt, env: Env, feed: Option<PlanSource>, driver: Driver, full: string, sub: string, args: Option<RowBatch>, selector: Option<RowBatch>)
    ensures PlannedWell(WithReturning(w, effect, env, GenericWrite(effect, feed, driver, full, sub, args, selector)))
  {
    assert WellFormed(GenericWrite(effect, feed, driver, full, sub, args, selector));
  }

  lemma PlanForIsWell(w: World, effect: EffectStmt, env: Env, m: string, full: string, sub: string, feed: Option<PlanSource>, args: Option<RowBatch>, selector: Option<RowBatch>)
    requires DriversPlanWell(w.mounts.table) && m in w.mounts.table
    ensures PlannedWell(PlanFor(w, effect, env, (full, w.mounts.table[m], sub), feed, args, selector))
  {
    GenericWriteIsWell(w, effect, env, feed, w.mounts.table[m], full, sub, args, selector);
    if args.Some? {
      assert PlansWell(w.mounts.table[m].planWrite(full, effect.verb, args.value, selector));
    }
  }

  lemma WriteFromIsWell(w: World, effect: EffectStmt, env: Env, checked: Result<(), EvalError>, routed: Result<(string, Driver, string), EvalError>,
      fed: Result<Option<PlanSource>, EvalError>, payload: Result<Option<RowBatch>, EvalError>)
    requires DriversPlanWell(w.mounts.table)
    requires routed.Ok? ==> exists m :: m in w.mounts.table && w.mounts.table[m] == routed.value.1
    ensures PlannedWell(WriteFrom(w, effect, env, checked, routed, fed, payload))
  {
    if checked.Ok? && routed.Ok? && fed.Ok? && payload.Ok? {
      var selector := Selector(effect, routed.value.0);
      if selector.Ok? {
        var m :| m in w.mounts.table && w.mounts.table[m] == routed.value.1;
        PlanForIsWell(w, effect, env, m, routed.value.0, routed.value.2, fed.value, payload.value, selector.value);
      }
    }
  }

  lemma WriteIsWell(w: World, effect: EffectStmt, env: Env)
    requires DriversPlanWell(w.mounts.table)
    ensures PlannedWell(EvalWrite(w, effect, env))
  {
    WriteFromIsWell(w, effect, env, CheckFilter(w, effect, env), RouteTarget(w, effect.target), Feed(w, effect, env), Payload(w, effect, env));
  }

  lemma EffectCallIsWell(w: World, call: CallRef, lowering: Resolver.CallLowering, source: Relation)
    requires |call.args| <= |lowering.params|
    ensures PlannedWell(EffectCall(w, call, lowering, source))
  {
  }

  lemma CallOverIsWell(w: World, call: CallRef, whole: Relation, source: Relation)
    ensures EvaluatedWell(CallOver(w, call, whole, source))
  {
    var lowered := Resolver.LowerCall(w.mounts, call);
    if lowered.Ok? && !lowered.value.returnsRows {
      EffectCallIsWell(w, call, lowered.value, source);
    }
  }

  lemma CallIsWell(w: World, p: Pipeline, call: CallRef, env: Env)
    requires p.ops != []
    ensures EvaluatedWell(EvalTerminalCall(w, p, call, env))
  {
    CallOverIsWell(w, call, FoldQuery(w, p, env), FoldQuery(w, DropLast(p), env));
  }

  lemma ArmIsWell(w: World, source: Pipeline, arm: SwitchArm, env: Env)
    requires DriversPlanWell(w.mounts.table)
    ensures PlannedWell(ArmPlan(w, source, arm, env))
  {
    var whole := Routed(source, arm);
    if arm.write.Some? {
      WriteIsWell(w, EffectStmt(arm.write.value.verb, arm.write.value.target, BodyPipeline(whole), arm.write.value.returning), env);
    } else if arm.ops != [] && arm.ops[|arm.ops| - 1].CallOp? {
      CallIsWell(w, whole, arm.ops[|arm.ops| - 1].call, env);
    }
  }

  lemma BlockIsWell(plans: seq<Planned>)
    requires forall i :: 0 <= i < |plans| ==> PlannedWell(plans[i])
    ensures PlannedWell(Sequence(plans, PURE, 0))
  {
    SequenceAccepts(plans, PURE, 0);
    if Sequence(plans, PURE, 0).Ok? {
      SequenceExtends(plans, PURE);
    }
  }

  lemma ArmsAreWell(w: World, source: Pipeline, arms: seq<SwitchArm>, env: Env)
    requires DriversPlanWell(w.mounts.table)
    ensures forall i :: 0 <= i < |arms| ==> PlannedWell(ArmPlans(w, source, arms, env)[i])
  {
    forall i | 0 <= i < |arms|
      ensures PlannedWell(ArmPlans(w, source, arms, env)[i])
    {
      ArmPlanAt(w, source, arms, env, i);
      ArmIsWell(w, source, arms[i], env);
    }
  }

  lemma SwitchIsWell(w: World, p: Pipeline, stage: SwitchStage, env: Env)
    requires p.ops != [] && DriversPlanWell(w.mounts.table)
    ensures var r := EvalTerminalSwitch(w, p, stage, env); r.Ok? ==> r.value.Effects? && WellFormed(r.value.plan)
  {
    ArmsAreWell(w, DropLast(p), stage.arms, env);
    BlockIsWell(ArmPlans(w, DropLast(p), stage.arms, env));
  }

  // ---- Statements ----

  ghost predicate EvaluatedWell(r: Evaluated) {
    r.Ok? && r.value.Effects? ==> WellFormed(r.value.plan)
  }

  lemma QueryIsWell(w: World, p: Pipeline, env: Env)
    requires DriversPlanWell(w.mounts.table)
    ensures EvaluatedWell(EvalQuery(w, p, env))
  {
    if p.ops != [] {
      var last := p.ops[|p.ops| - 1];
      if last.CallOp? {
        CallIsWell(w, p, last.call, env);
      } else if last.Switch? {
        SwitchIsWell(w, p, last.stage, env);
      }
    }
  }

  /**
   Every plan the evaluator returns numbers its nodes 0, 1, … and has every dependency run from a smaller
   id to a larger one, whatever the nesting of bindings, blocks, switches, calls and writes.
   */
  lemma {:induction false} EvaluatedPlansAreWellFormed(w: World, stmt: Statement, env: Env)
    requires DriversPlanWell(w.mounts.table)
    ensures EvaluatedWell(EvalInner(w, stmt, env))
    decreases stmt, 0
  {
    match stmt
    case Query(p) => QueryIsWell(w, p, env);
    case Effect(effect) => WriteIsWell(w, effect, env);
    case PlanWrap(_, inner) => EvaluatedPlansAreWellFormed(w, inner, env);
    case Let(name, value, body) =>
      var bound := EvalInner(w, value, env);
      if bound.Ok? && bound.value.Relation? {
        EvaluatedPlansAreWellFormed(w, body, env[name := bound.value.rel]);
      }
    case Transaction(members) =>
      MembersAreWell(w, members, env);
      BlockIsWell(MemberPlans(w, members, env));
    case Ddl(_, _) =>
  }

  lemma {:induction false} MembersAreWell(w: World, members: seq<Statement>, env: Env)
    requires DriversPlanWell(w.mounts.table)
    ensures forall i :: 0 <= i < |members| ==> PlannedWell(MemberPlans(w, members, env)[i])
    decreases members, 1
  {
    if members != [] {
      EvaluatedPlansAreWellFormed(w, members[0], env);
      MembersAreWell(w, members[1..], env);
    }
  }

  // ---- Blocks ----

  ghost predicate AllPlannedWell(plans: seq<Planned>) {
    forall i :: 0 <= i < |plans| ==> PlannedWell(plans[i])
  }

  /** An accepted block cut in two: the parts are accepted, and the first part is applied first. */
  lemma AcceptedPartsInOrder(a: seq<Planned>, b: seq<Planned>)
    requires AllPlannedWell(a) && AllPlannedWell(b) && Sequence(a + b, PURE, 0).Ok?
    ensures var p := Sequence(a + b, PURE, 0).value;
            forall x, y :: 0 <= x < Size(a) <= y < |p.nodes| ==> Precedes(p, x, y)
  {
    SequenceAccepts(a + b, PURE, 0);
    assert forall i :: 0 <= i < |a| ==> (a + b)[i] == a[i];
    assert forall i :: 0 <= i < |b| ==> (a + b)[|a| + i] == b[i];
    SequenceExtends(a, PURE);
    SequenceConcat(a, b, PURE);
    SequenceExtends(b, Sequence(a, PURE, 0).value);
  }

  lemma BlockInOrder(plans: seq<Planned>, k: nat)
    requires AllPlannedWell(plans) && Sequence(plans, PURE, 0).Ok? && k <= |plans|
    ensures var p := Sequence(plans, PURE, 0).value;
            forall x, y :: 0 <= x < Size(plans[..k]) <= y < |p.nodes| ==> Precedes(p, x, y)
  {
    assert plans == plans[..k] + plans[k..];
    AcceptedPartsInOrder(plans[..k], plans[k..]);
  }

  lemma AcceptedBlock(members: seq<Statement>, w: World, env: Env)
    requires EvalTransaction(w, members, env).Ok?
    ensures EvalTransaction(w, members, env) == Sequence(MemberPlans(w, members, env), PURE, 0)
  {
  }

  /** The block cut before member `k`: all nodes of the earlier members precede all nodes of the others. */
  lemma TransactionRunsInSourceOrder(w: World, members: seq<Statement>, env: Env, k: nat)
    requires DriversPlanWell(w.mounts.table) && EvalTransaction(w, members, env).Ok? && k <= |members|
    ensures var p, first := EvalTransaction(w, members, env).value, Size(MemberPlans(w, members, env)[..k]);
            forall x, y :: 0 <= x < first <= y < |p.nodes| ==> Precedes(p, x, y)
  {
    var plans := MemberPlans(w, members, env);
    MembersAreWell(w, members, env);
    AcceptedBlock(members, w, env);
    BlockInOrder(plans, k);
  }

  /** A switch likewise: the arms declared before arm `k` are applied before the others. */
  lemma SwitchRunsInDeclaredOrder(w: World, p: Pipeline, stage: SwitchStage, env: Env, k: nat)
    requires DriversPlanWell(w.mounts.table) && p.ops != [] && k <= |stage.arms|
    requires EvalTerminalSwitch(w, p, stage, env).Ok?
    ensures EvalTerminalSwitch(w, p, stage, env).value.Effects?
    ensures var plan, first := EvalTerminalSwitch(w, p, stage, env).value.plan, Size(ArmPlans(w, DropLast(p), stage.arms, env)[..k]);
            forall x, y :: 0 <= x < first <= y < |plan.nodes| ==> Precedes(plan, x, y)
  {
    var plans := ArmPlans(w, DropLast(p), stage.arms, env);
    ArmsAreWell(w, DropLast(p), stage.arms, env);
    BlockInOrder(plans, k);
  }

  /** The commit walk of any plan the evaluator returns is the order its nodes were planned in. */
  lemma CommitsInPlannedOrder(w: World, stmt: Statement, env: Env, plan: Plan, order: seq<nat>)
    requires DriversPlanWell(w.mounts.table) && EvalInner(w, stmt, env) == Ok(Effects(plan))
    requires PlanTopo.Topological(plan, order) && PlanTopo.SmallestFirst(plan, order)
    ensures forall k :: 0 <= k < |order| ==> order[k] == k
  {
    EvaluatedPlansAreWellFormed(w, stmt, env);
    PlanTopo.WellFormedWalksInOrder(plan, order);
  }

  // ---- Acceptance ----

  predicate AnyIrrevocable(nodes: seq<EffectNode>) {
    exists n | n in nodes :: Irrevocable(n)
  }

  lemma JoiningKeepsIrrevocable(acc: Plan, own: Plan, base: nat)
    ensures AnyIrrevocable(Then(acc, Relabel(own, base)).nodes) <==> AnyIrrevocable(acc.nodes) || AnyIrrevocable(own.nodes)
  {
    var shifted := Relabel(own, base);
    var all := Then(acc, shifted).nodes;
    assert forall n :: n in all <==> n in acc.nodes || n in shifted.nodes;
    assert AnyIrrevocable(shifted.nodes) <==> AnyIrrevocable(own.nodes) by {
      if n :| n in shifted.nodes && Irrevocable(n) {
        var k :| 0 <= k < |shifted.nodes| && shifted.nodes[k] == n;
        assert own.nodes[k] in own.nodes && Irrevocable(own.nodes[k]);
      }
      if n :| n in own.nodes && Irrevocable(n) {
        var k :| 0 <= k < |own.nodes| && own.nodes[k] == n;
        assert shifted.nodes[k] in shifted.nodes && Irrevocable(shifted.nodes[k]);
      }
    }
  }

  /** A member a transaction takes: it plans effects, all of them revocable. */
  predicate Admissible(member: Planned) {
    member.Ok? && !AnyIrrevocable(member.value.nodes)
  }

  predicate AllAdmissible(plans: seq<Planned>) {
    forall i :: 0 <= i < |plans| ==> Admissible(plans[i])
  }

  lemma AllAdmissibleCons(plans: seq<Planned>)
    requires plans != []
    ensures AllAdmissible(plans) <==> Admissible(plans[0]) && AllAdmissible(plans[1..])
  {
    assert forall i :: 0 <= i < |plans| - 1 ==> plans[1..][i] == plans[i + 1];
    assert forall i :: 0 < i < |plans| ==> plans[i] == plans[1..][i - 1];
  }

  lemma {:induction false} GateIsMemberwise(plans: seq<Planned>, acc: Plan, base: nat)
    ensures Reversible(Sequence(plans, acc, base)).Ok? <==> !AnyIrrevocable(acc.nodes) && AllAdmissible(plans)
    decreases plans
  {
    if plans != [] {
      AllAdmissibleCons(plans);
      if plans[0].Ok? {
        var joined, next := Then(acc, Relabel(plans[0].value, base)), base + |plans[0].value.nodes|;
        SequenceUnfolds(plans, plans[0].value, acc, base, joined, next);
        JoiningKeepsIrrevocable(acc, plans[0].value, base);
        GateIsMemberwise(plans[1..], joined, next);
      }
    }
  }

  /** A block is accepted exactly when each of its members is accepted as a block of its own. */
  lemma TransactionAcceptedMemberwise(w: World, members: seq<Statement>, env: Env)
    ensures EvalTransaction(w, members, env).Ok? <==>
            forall i :: 0 <= i < |members| ==> EvalTransaction(w, [members[i]], env).Ok?
  {
    var plans := MemberPlans(w, members, env);
    GateIsMemberwise(plans, PURE, 0);
    forall i | 0 <= i < |members|
      ensures Admissible(plans[i]) <==> EvalTransaction(w, [members[i]], env).Ok?
    {
      MemberPlanAt(w, members, env, i);
      MemberPlanAt(w, [members[i]], env, 0);
      GateIsMemberwise(MemberPlans(w, [members[i]], env), PURE, 0);
    }
  }
}
