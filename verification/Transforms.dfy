/** The consent plan of `|> transform` stages, and the whole evaluation of a statement. */
module Transforms {
  import opened Wrappers
  import opened Types
  import opened Ast
  import opened Errors
  import opened Registry
  import opened Relations
  import opened Evaluator
  import opened EvaluatorPlans
  import Resolver
  import Substitution
  import P = Plan

  // ---- The walk ----

  function InSource(source: Source): seq<string>
    decreases source
  {
    if source.Subquery? then InPipeline(source.inner) else []
  }

  function InPipeline(p: Pipeline): seq<string>
    decreases p, 1
  {
    InSource(p.source) + InOps(p.ops)
  }

  function InOps(ops: seq<PipeOp>): seq<string>
    decreases ops, 0
  {
    if ops == [] then [] else InOp(ops[0]) + InOps(ops[1..])
  }

  function InOp(op: PipeOp): seq<string>
    decreases op
  {
    match op
    case Transform(name) => [name]
    case Join(source, _) => InSource(source)
    case Union(sub) => InPipeline(sub)
    case Except(sub) => InPipeline(sub)
    case Intersect(sub) => InPipeline(sub)
    case Switch(stage) => InArms(stage.arms)
    case _ => []
  }

  function InArms(arms: seq<SwitchArm>): seq<string>
    decreases arms, 0
  {
    if arms == [] then [] else InOps(arms[0].ops) + InArms(arms[1..])
  }

  /** The transform stages of a statement, in the order they are written. */
  function InStatement(stmt: Statement): seq<string>
    decreases stmt, 0
  {
    match stmt
    case Query(p) => InPipeline(p)
    case Effect(effect) => if effect.body.BodyPipeline? then InPipeline(effect.body.pipeline) else []
    case PlanWrap(_, inner) => InStatement(inner)
    case Let(_, value, body) => InStatement(value) + InStatement(body)
    case Transaction(members) => InMembers(members)
    case Ddl(_, _) => []
  }

  function InMembers(members: seq<Statement>): seq<string>
    decreases members, 1
  {
    if members == [] then [] else InStatement(members[0]) + InMembers(members[1..])
  }

  /** The list the walk pushes names into. */
  class Names {
    var names: seq<string>

    constructor ()
      ensures names == []
    {
      names := [];
    }

    method Push(name: string)
      modifies this
      ensures names == old(names) + [name]
    {
      names := names + [name];
    }

    method Source(source: Source)
      modifies this
      ensures names == old(names) + InSource(source)
      decreases source
    {
      if source.Subquery? {
        Pipeline(source.inner);
      }
    }

    method Pipeline(p: Pipeline)
      modifies this
      ensures names == old(names) + InPipeline(p)
      decreases p, 1
    {
      Source(p.source);
      Ops(p.ops);
    }

    method Ops(ops: seq<PipeOp>)
      modifies this
      ensures names == old(names) + InOps(ops)
      decreases ops, 0
    {
      for i := 0 to |ops|
        invariant names + InOps(ops[i..]) == old(names) + InOps(ops)
      {
        assert ops[i..][0] == ops[i] && ops[i..][1..] == ops[i + 1..];
        Op(ops[i]);
      }
      assert ops[|ops|..] == [];
    }

    method Op(op: PipeOp)
      modifies this
      ensures names == old(names) + InOp(op)
      decreases op
    {
      match op
      case Transform(name) => Push(name);
      case Join(source, _) => Source(source);
      case Union(sub) => Pipeline(sub);
      case Except(sub) => Pipeline(sub);
      case Intersect(sub) => Pipeline(sub);
      case Switch(stage) => Arms(stage.arms);
      case _ =>
    }

    method Arms(arms: seq<SwitchArm>)
      modifies this
      ensures names == old(names) + InArms(arms)
      decreases arms, 0
    {
      for i := 0 to |arms|
        invariant names + InArms(arms[i..]) == old(names) + InArms(arms)
      {
        assert arms[i..][0] == arms[i] && arms[i..][1..] == arms[i + 1..];
        Ops(arms[i].ops);
      }
      assert arms[|arms|..] == [];
    }

    method Statement(stmt: Statement)
      modifies this
      ensures names == old(names) + InStatement(stmt)
      decreases stmt, 0
    {
      match stmt
      case Query(p) => Pipeline(p);
      case Effect(effect) =>
        if effect.body.BodyPipeline? {
          Pipeline(effect.body.pipeline);
        }
      case PlanWrap(_, inner) => Statement(inner);
      case Let(_, value, body) =>
        Statement(value);
        Statement(body);
      case Transaction(members) => Members(members);
      case Ddl(_, _) =>
    }

    method Members(members: seq<Statement>)
      modifies this
      ensures names == old(names) + InMembers(members)
      decreases members, 1
    {
      for i := 0 to |members|
        invariant names + InMembers(members[i..]) == old(names) + InMembers(members)
      {
        assert members[i..][0] == members[i] && members[i..][1..] == members[i + 1..];
        Statement(members[i]);
      }
      assert members[|members|..] == [];
    }
  }

  // ---- The consent plan ----

  function ConsentRow(name: string, def: TransformDef): RowBatch {
    RowBatch(
      Schema([
        NewColumn("transform", TText, false),
        NewColumn("provider", TText, true),
        NewColumn("model", TText, true),
        NewColumn("effort", TText, true),
        NewColumn("mode", TText, false)]),
      [Row([
        Text(name),
        Text(def.provider),
        Text(def.model),
        if def.effort.Some? then Text(def.effort.value) else Null,
        Text(def.mode)])])
  }

  function ConsentNode(id: nat, name: string, def: TransformDef): P.EffectNode {
    P.NewNode(id, P.CallProc("transform." + name), P.Target("transform", "/transform/" + name))
      .(args := ConsentRow(name, def), irreversible := true)
  }

  /** One node per name, each chained after the one before. */
  function Consent(defs: map<string, TransformDef>, names: seq<string>): P.Plan
    requires forall n | n in names :: n in defs
  {
    P.Plan(
      seq(|names|, i requires 0 <= i < |names| => ConsentNode(i, names[i], defs[names[i]])),
      seq(if names == [] then 0 else |names| - 1, i requires 0 <= i => (i, i + 1)),
      None)
  }

  function ConsentPlan(defs: map<string, TransformDef>, names: seq<string>): Planned {
    if forall n | n in names :: n in defs then Ok(Consent(defs, names))
    else Err(TransformNotExecutable(FirstMissing(defs, names)))
  }

  function FirstMissing(defs: map<string, TransformDef>, names: seq<string>): (n: string)
    requires exists n | n in names :: n !in defs
    ensures n in names && n !in defs
  {
    if names[0] !in defs then names[0] else FirstMissing(defs, names[1..])
  }

  /** The loop over the names, chaining each new node after the last. */
  method BuildConsent(defs: map<string, TransformDef>, names: seq<string>) returns (r: Planned)
    ensures r == ConsentPlan(defs, names)
  {
    var b := new P.PlanBuilder();
    var prev: Option<nat> := None;
    for i := 0 to |names|
      invariant forall n | n in names[..i] :: n in defs
      invariant b.next == i && b.plan == Consent(defs, names[..i])
      invariant prev == if i == 0 then None else Some(i - 1)
    {
      assert names[..i + 1] == names[..i] + [names[i]];
      if names[i] !in defs {
        FirstMissingAt(defs, names, i);
        return Err(TransformNotExecutable(names[i]));
      }
      var id := b.NextId();
      var _ := b.Push(ConsentNode(id, names[i], defs[names[i]]));
      if prev.Some? {
        b.DependsOn(id, prev.value);
      }
      prev := Some(id);
      assert b.plan.nodes == Consent(defs, names[..i + 1]).nodes;
      assert b.plan.deps == Consent(defs, names[..i + 1]).deps;
    }
    assert names[..|names|] == names;
    return Ok(b.plan);
  }

  lemma {:induction false} FirstMissingAt(defs: map<string, TransformDef>, names: seq<string>, i: nat)
    requires i < |names| && names[i] !in defs && forall n | n in names[..i] :: n in defs
    ensures names[i] in names && FirstMissing(defs, names) == names[i]
  {
    if i > 0 {
      assert names[0] == names[..i][0];
      assert names[1..][i - 1] == names[i] && names[1..][..i - 1] == names[..i][1..];
      FirstMissingAt(defs, names[1..], i - 1);
    }
  }

  // ---- The whole evaluation ----

  function TerminalOf(stmt: Statement): Statement {
    match stmt
    case Let(_, _, body) => TerminalOf(body)
    case PlanWrap(_, inner) => TerminalOf(inner)
    case _ => stmt
  }

  /** Consent first, then the effects; a relation is read first, then consented to. */
  function WithConsent(consent: P.Plan, value: EvalValue): P.Plan {
    match value
    case Effects(plan) => P.Then(P.Relabel(consent, 0), P.Relabel(plan, |consent.nodes|))
    case Relation(rel) => P.Then(P.Relabel(P.Plan([ReadNode(0, rel)], [], None), 0), P.Relabel(consent, 1))
  }

  function Gated(w: World, stmt: Statement, names: seq<string>, value: EvalValue): Evaluated {
    if names == [] then Ok(value)
    else if TerminalOf(stmt).Transaction? then Err(IrreversibleInTransaction)
    else
      var consent :- ConsentPlan(w.mounts.transforms, names);
      Ok(Effects(WithConsent(consent, value)))
  }

  function EvalStatement(w: World, stmt: Statement): Evaluated {
    match Resolver.ResolveStatement(w.mounts, stmt, {})
    case Err(e) => Err(Resolve(e))
    case Ok(_) =>
      var value :- EvalInner(w, stmt, map[]);
      Gated(w, stmt, InStatement(stmt), value)
  }

  // ---- What consent guarantees ----

  predicate IsConsent(node: P.EffectNode, id: nat, name: string) {
    node.id == id && node.kind == P.CallProc("transform." + name) && node.irreversible
  }

  /** Nodes `at`, `at + 1`, … of the plan are the consent nodes of the names, in their order. */
  ghost predicate Consents(p: P.Plan, at: nat, names: seq<string>) {
    && at + |names| <= |p.nodes|
    && (forall i :: 0 <= i < |names| ==> IsConsent(p.nodes[at + i], at + i, names[i]))
    && (forall x, y :: at <= x < y < at + |names| ==> P.Precedes(p, x, y))
  }

  lemma ConsentIsWell(defs: map<string, TransformDef>, names: seq<string>)
    requires forall n | n in names :: n in defs
    ensures P.WellFormed(Consent(defs, names))
  {
  }

  lemma {:induction false} ConsentIsChained(defs: map<string, TransformDef>, names: seq<string>, i: nat, j: nat)
    requires forall n | n in names :: n in defs
    requires i < j < |names|
    ensures P.Precedes(Consent(defs, names), i, j)
    decreases j - i
  {
    var p := Consent(defs, names);
    assert p.deps[i] == (i, i + 1) && (i, i + 1) in p.deps;
    assert P.Joins(p, [i, i + 1], i, i + 1);
    if i + 1 < j {
      ConsentIsChained(defs, names, i + 1, j);
      P.PrecedesIsTransitive(p, i, i + 1, j);
    }
  }

  lemma ConsentConsents(defs: map<string, TransformDef>, names: seq<string>)
    requires forall n | n in names :: n in defs
    ensures Consents(Consent(defs, names), 0, names)
  {
    forall x: nat, y: nat | x < y < |names|
      ensures P.Precedes(Consent(defs, names), x, y)
    {
      ConsentIsChained(defs, names, x, y);
    }
  }

  lemma ConsentsKept(consent: P.Plan, plan: P.Plan, names: seq<string>)
    requires EvaluatorPlans.Extends(consent, plan) && Consents(consent, 0, names)
    ensures Consents(plan, 0, names)
  {
    forall i | 0 <= i < |names|
      ensures IsConsent(plan.nodes[0 + i], 0 + i, names[i])
    {
      assert IsConsent(consent.nodes[0 + i], 0 + i, names[i]);
      assert plan.nodes[i] == consent.nodes[i];
    }
  }

  lemma EffectsShifted(consent: P.Plan, plan: P.Plan, joined: P.Plan)
    requires P.WellFormed(consent) && P.WellFormed(plan)
    requires joined == P.Then(consent, P.Relabel(plan, |consent.nodes|))
    ensures |joined.nodes| == |consent.nodes| + |plan.nodes|
    ensures forall y :: 0 <= y < |plan.nodes| ==>
              joined.nodes[|consent.nodes| + y] == plan.nodes[y].(id := |consent.nodes| + y)
  {
    forall y | 0 <= y < |plan.nodes|
      ensures joined.nodes[|consent.nodes| + y] == plan.nodes[y].(id := |consent.nodes| + y)
    {
      JoinedKeepsPlan(consent, plan, joined, y, y);
    }
  }

  lemma ConsentBeforeEffects(defs: map<string, TransformDef>, names: seq<string>, plan: P.Plan)
    requires (forall n | n in names :: n in defs) && P.WellFormed(plan)
    ensures var p := WithConsent(Consent(defs, names), Effects(plan));
            && P.WellFormed(p)
            && |p.nodes| == |names| + |plan.nodes|
            && Consents(p, 0, names)
            && (forall x, y :: 0 <= x < |names| <= y < |p.nodes| ==> P.Precedes(p, x, y))
            && (forall y :: 0 <= y < |plan.nodes| ==> p.nodes[|names| + y] == plan.nodes[y].(id := |names| + y))
  {
    var consent := Consent(defs, names);
    var p := WithConsent(consent, Effects(plan));
    ConsentIsWell(defs, names);
    ConsentConsents(defs, names);
    assert P.Relabel(consent, 0) == consent && |consent.nodes| == |names|;
    JoinedExtends(consent, plan, p);
    ConsentsKept(consent, p, names);
    EffectsShifted(consent, plan, p);
  }

  lemma ConsentsShifted(before: P.Plan, consent: P.Plan, joined: P.Plan, names: seq<string>)
    requires P.WellFormed(before) && P.WellFormed(consent) && Consents(consent, 0, names)
    requires joined == P.Then(before, P.Relabel(consent, |before.nodes|))
    ensures |joined.nodes| == |before.nodes| + |consent.nodes|
    ensures Consents(joined, |before.nodes|, names)
  {
    var at := |before.nodes|;
    forall i | 0 <= i < |names|
      ensures IsConsent(joined.nodes[at + i], at + i, names[i])
    {
      JoinedKeepsPlan(before, consent, joined, i, i);
      assert IsConsent(consent.nodes[0 + i], 0 + i, names[i]);
    }
    forall x: nat, y: nat | at <= x < y < at + |names|
      ensures P.Precedes(joined, x, y)
    {
      JoinedKeepsPlan(before, consent, joined, x - at, y - at);
    }
  }

  lemma ReadBeforeConsent(defs: map<string, TransformDef>, names: seq<string>, rel: PlanSource)
    requires forall n | n in names :: n in defs
    ensures var p := WithConsent(Consent(defs, names), EvalValue.Relation(rel));
            && P.WellFormed(p)
            && |p.nodes| == 1 + |names|
            && p.nodes[0] == ReadNode(0, rel)
            && Consents(p, 1, names)
            && (forall y :: 1 <= y < |p.nodes| ==> P.Precedes(p, 0, y))
  {
    var consent := Consent(defs, names);
    var read := P.Plan([ReadNode(0, rel)], [], None);
    var p := WithConsent(consent, EvalValue.Relation(rel));
    ConsentIsWell(defs, names);
    ConsentConsents(defs, names);
    assert P.Relabel(read, 0) == read;
    assert P.WellFormed(read) && |read.nodes| == 1 && |consent.nodes| == |names|;
    JoinedExtends(read, consent, p);
    ConsentsShifted(read, consent, p, names);
    assert read.nodes[0] == p.nodes[0];
  }

  // ---- Transactions ----

  /** A block anywhere in the statement, outside DDL. */
  predicate HasTransaction(stmt: Statement) {
    match stmt
    case Transaction(_) => true
    case PlanWrap(_, inner) => HasTransaction(inner)
    case Let(_, value, body) => HasTransaction(value) || HasTransaction(body)
    case _ => false
  }

  /** A statement with a block evaluates, if at all, to effects, and only because the block is what it ends in. */
  lemma {:induction false} BlocksAreTerminal(w: World, stmt: Statement, env: Env)
    requires HasTransaction(stmt) && EvalInner(w, stmt, env).Ok?
    ensures TerminalOf(stmt).Transaction? && EvalInner(w, stmt, env).value.Effects?
    decreases stmt
  {
    match stmt
    case PlanWrap(_, inner) => BlocksAreTerminal(w, inner, env);
    case Let(name, value, body) =>
      Substitution.LetMeaning(w, name, value, body, env);
      if HasTransaction(value) {
        BlocksAreTerminal(w, value, env);
      } else {
        BlocksAreTerminal(w, body, env[name := EvalInner(w, value, env).value.rel]);
      }
    case _ =>
  }

  /** A block is never evaluated together with a transform stage, wherever either stands. */
  lemma TransactionsHoldNoTransform(w: World, stmt: Statement)
    requires HasTransaction(stmt) && InStatement(stmt) != []
    ensures EvalStatement(w, stmt).Err?
  {
    if EvalInner(w, stmt, map[]).Ok? {
      BlocksAreTerminal(w, stmt, map[]);
    }
  }

  // ---- The guarantee ----

  /** What a statement with transform stages evaluates to. */
  ghost predicate Consented(names: seq<string>, value: EvalValue, plan: P.Plan) {
    && P.WellFormed(plan)
    && match value
       case Effects(main) =>
         && |plan.nodes| == |names| + |main.nodes|
         && Consents(plan, 0, names)
         && (forall x, y :: 0 <= x < |names| <= y < |plan.nodes| ==> P.Precedes(plan, x, y))
         && (forall y :: 0 <= y < |main.nodes| ==> plan.nodes[|names| + y] == main.nodes[y].(id := |names| + y))
       case Relation(rel) =>
         && |plan.nodes| == 1 + |names|
         && plan.nodes[0] == ReadNode(0, rel)
         && Consents(plan, 1, names)
         && (forall y :: 1 <= y < |plan.nodes| ==> P.Precedes(plan, 0, y))
  }

  lemma GatedConsents(w: World, stmt: Statement, names: seq<string>, value: EvalValue)
    requires names != [] && Gated(w, stmt, names, value).Ok?
    requires value.Effects? ==> P.WellFormed(value.plan)
    ensures Gated(w, stmt, names, value).value.Effects?
    ensures Consented(names, value, Gated(w, stmt, names, value).value.plan)
  {
    match value
    case Effects(main) => ConsentBeforeEffects(w.mounts.transforms, names, main);
    case Relation(rel) => ReadBeforeConsent(w.mounts.transforms, names, rel);
  }

  /**
   A statement that evaluates and holds transform stages, anywhere outside DDL, is a plan with exactly one
   irreversible `transform.<name>` node added per stage, chained in the order they are written; every effect
   waits for all of them, and a plain query's read comes before them.
   */
  lemma ConsentCoversTheTree(w: World, stmt: Statement)
    requires DriversPlanWell(w.mounts.table)
    requires InStatement(stmt) != [] && EvalStatement(w, stmt).Ok?
    ensures EvalInner(w, stmt, map[]).Ok? && EvalStatement(w, stmt).value.Effects?
    ensures Consented(InStatement(stmt), EvalInner(w, stmt, map[]).value, EvalStatement(w, stmt).value.plan)
  {
    EvaluatedPlansAreWellFormed(w, stmt, map[]);
    GatedConsents(w, stmt, InStatement(stmt), EvalInner(w, stmt, map[]).value);
  }

  /** Without a transform stage the statement evaluates to itself, gated by name resolution only. */
  lemma NoTransformNoConsent(w: World, stmt: Statement)
    requires InStatement(stmt) == [] && Resolver.ResolveStatement(w.mounts, stmt, {}).Ok?
    ensures EvalStatement(w, stmt) == EvalInner(w, stmt, map[])
  {
  }
}
