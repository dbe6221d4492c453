/** Name resolution: calls and receiver-typed aliases, write capabilities, and the scope of `LET` names. */
module Resolver {
  import opened Wrappers
  import opened Types
  import opened Ast
  import opened Errors
  import opened Paths
  import opened Registry
  import Text

  datatype ResolvedCall = ResolvedCall(driver: string, proc: string, irreversible: bool)
  {
    function Qualified(): string {
      driver + "." + proc
    }
  }

  /** What the evaluator needs to lower a terminal call. */
  datatype CallLowering = CallLowering(resolved: ResolvedCall, params: seq<string>, returnsRows: bool)

  type Calls = Result<seq<ResolvedCall>, ResolveError>

  type Scope = set<string>

  function FindProc(procs: seq<ProcSig>, name: string): (r: Option<ProcSig>)
    ensures r.Some? ==> r.value in procs && r.value.name == name
    ensures r.None? ==> forall p :: p in procs ==> p.name != name
  {
    if procs == [] then None
    else if procs[0].name == name then Some(procs[0])
    else FindProc(procs[1..], name)
  }

  // ---- Calls ----

  /** The smallest element in lexicographic order exists and is unique. */
  lemma {:induction false} LeastExists(keys: set<string>)
    requires keys != {}
    ensures exists k :: k in keys && forall o :: o in keys ==> !Text.Before(o, k)
  {
    var k :| k in keys;
    if keys == {k} {
      Text.BeforeIsTotal(k, k);
    } else {
      var rest := keys - {k};
      assert keys == rest + {k};
      LeastExists(rest);
      var m :| m in rest && forall o :: o in rest ==> !Text.Before(o, m);
      Text.BeforeIsTotal(k, m);
      Text.BeforeIsTotal(k, k);
      var least := if Text.Before(k, m) then k else m;
      forall o | o in keys
        ensures !Text.Before(o, least)
      {
        if o in rest && least == k && Text.Before(o, k) {
          Text.BeforeIsTransitive(o, k, m);
        }
      }
    }
  }

  lemma LeastIsUnique(keys: set<string>)
    ensures forall a, b :: a in keys && b in keys && !Text.Before(a, b) && !Text.Before(b, a) ==> a == b
  {
    forall a, b | a in keys && b in keys && !Text.Before(a, b) && !Text.Before(b, a)
      ensures a == b
    {
      Text.BeforeIsTotal(a, b);
    }
  }

  function Least(keys: set<string>): (k: string)
    requires keys != {}
    ensures k in keys && forall o :: o in keys ==> !Text.Before(o, k)
  {
    LeastExists(keys);
    LeastIsUnique(keys);
    var k :| k in keys && forall o :: o in keys ==> !Text.Before(o, k);
    k
  }

  /** By mount path, then by literal mount, then the first mount (in key order) of that driver id. */
  function DriverNamed(mounts: Mounts, namespace: string): Option<Driver> {
    var mount := "/" + namespace;
    match ResolvePath(mounts, mount)
    case Some((driver, _)) => Some(driver)
    case None =>
      if mount in mounts.table then Some(mounts.table[mount])
      else
        var keys := set m | m in mounts.table && mounts.table[m].id == namespace;
        if keys == {} then None else Some(mounts.table[Least(keys)])
  }

  function CheckArgs(qualified: string, args: seq<CallArg>, sig: ProcSig): (r: Option<ResolveError>)
    ensures r.Some? ==> !r.value.UnknownBinding?
    ensures r.None? ==> |args| <= |sig.params|
  {
    if |args| > |sig.params| then Some(ArityMismatch(qualified, |sig.params|, |args|)) else CheckArgNames(qualified, args, sig)
  }

  function CheckArgNames(qualified: string, args: seq<CallArg>, sig: ProcSig): (r: Option<ResolveError>)
    ensures r.Some? ==> r.value.UnknownArg?
    ensures r.None? <==> forall i :: 0 <= i < |args| && args[i].name.Some? ==> args[i].name.value in sig.params
  {
    if args == [] then None
    else if args[0].name.Some? && args[0].name.value !in sig.params then Some(UnknownArg(qualified, args[0].name.value))
    else
      assert forall i :: 0 <= i < |args| - 1 ==> args[1..][i] == args[i + 1];
      CheckArgNames(qualified, args[1..], sig)
  }

  function LowerCall(mounts: Mounts, call: CallRef): (r: Result<CallLowering, ResolveError>)
    ensures r.Err? ==> !r.error.UnknownBinding?
    ensures r.Ok? ==> |call.args| <= |r.value.params|
  {
    match DriverNamed(mounts, call.driver)
    case None => Err(UnknownDriver(call.driver))
    case Some(driver) =>
      match FindProc(driver.procedures, call.action)
      case None => Err(UnknownProcedure(call.driver, call.action))
      case Some(sig) =>
        match CheckArgs(driver.id + "." + call.action, call.args, sig)
        case Some(e) => Err(e)
        case None => Ok(CallLowering(ResolvedCall(driver.id, call.action, sig.irreversible), sig.params, sig.returnsRows))
  }

  // ---- Aliases ----

  function FindAlias(prelude: seq<AliasFn>, name: string): Option<AliasFn> {
    if prelude == [] then None
    else if prelude[0].name == name then Some(prelude[0])
    else FindAlias(prelude[1..], name)
  }

  /** The part after the first dot, or all of it. */
  function ProcOf(qualified: string): string {
    var parts := SplitOn(qualified, '.');
    if |parts| == 1 then qualified else JoinWith(parts[1..], '.')
  }

  function Providers(mounts: Mounts, name: string): set<string> {
    set m | m in mounts.table && FindAlias(mounts.table[m].prelude, name).Some?
  }

  /** Nothing for a name no driver ships; otherwise the receiver must ship it. */
  function ResolveAlias(mounts: Mounts, name: string, receiver: Option<Driver>): (r: Result<Option<ResolvedCall>, ResolveError>)
    ensures r.Err? ==> !r.error.UnknownBinding?
  {
    var providers := Providers(mounts, name);
    if providers == {} then Ok(None)
    else if receiver.None? then Err(UnknownReceiver(name))
    else
      match FindAlias(receiver.value.prelude, name)
      case Some(alias) =>
        var proc := ProcOf(alias.desugarsTo);
        var sig := FindProc(receiver.value.procedures, proc);
        Ok(Some(ResolvedCall(receiver.value.id, proc, sig.Some? && sig.value.irreversible)))
      case None => if |providers| > 1 then Err(AmbiguousAlias(name)) else Err(AliasNotProvided(name, receiver.value.id))
  }

  function ResolveExpr(mounts: Mounts, e: Expr, receiver: Option<Driver>): (r: Calls)
    ensures r.Err? ==> !r.error.UnknownBinding?
    decreases e, 0
  {
    match e
    case Call(fname, args) =>
      var alias :- ResolveAlias(mounts, fname, receiver);
      var inner :- ResolveExprs(mounts, args, receiver);
      Ok((if alias.Some? then [alias.value] else []) + inner)
    case Binary(_, lhs, rhs) =>
      var l :- ResolveExpr(mounts, lhs, receiver);
      var r :- ResolveExpr(mounts, rhs, receiver);
      Ok(l + r)
    case Unary(_, operand) => ResolveExpr(mounts, operand, receiver)
    case InSet(subject, members) =>
      var s :- ResolveExpr(mounts, subject, receiver);
      var m :- ResolveExprs(mounts, members, receiver);
      Ok(s + m)
    case AnyOf(_, subject, members) =>
      var s :- ResolveExpr(mounts, subject, receiver);
      var m :- ResolveExprs(mounts, members, receiver);
      Ok(s + m)
    case Between(subject, low, high) =>
      var s :- ResolveExpr(mounts, subject, receiver);
      var lo :- ResolveExpr(mounts, low, receiver);
      var hi :- ResolveExpr(mounts, high, receiver);
      Ok(s + lo + hi)
    case LikePat(subject, pattern) =>
      var s :- ResolveExpr(mounts, subject, receiver);
      var p :- ResolveExpr(mounts, pattern, receiver);
      Ok(s + p)
    case Lambda(_, body) => ResolveExpr(mounts, body, receiver)
    case ArrayOf(elems) => ResolveExprs(mounts, elems, receiver)
    case StructOf(inits) => ResolveInits(mounts, inits, receiver)
    case _ => Ok([])
  }

  function ResolveExprs(mounts: Mounts, es: seq<Expr>, receiver: Option<Driver>): (r: Calls)
    ensures r.Err? ==> !r.error.UnknownBinding?
    decreases es, 1
  {
    if es == [] then Ok([])
    else
      var first :- ResolveExpr(mounts, es[0], receiver);
      var rest :- ResolveExprs(mounts, es[1..], receiver);
      Ok(first + rest)
  }

  function ResolveInits(mounts: Mounts, inits: seq<FieldInit>, receiver: Option<Driver>): (r: Calls)
    ensures r.Err? ==> !r.error.UnknownBinding?
    decreases inits, 1
  {
    if inits == [] then Ok([])
    else
      var first :- ResolveExpr(mounts, inits[0].init, receiver);
      var rest :- ResolveInits(mounts, inits[1..], receiver);
      Ok(first + rest)
  }

  function ProjectionExprs(projs: seq<Projection>): seq<Expr> {
    if projs == [] then []
    else (if projs[0].Proj? then [projs[0].expr] else []) + ProjectionExprs(projs[1..])
  }

  function AssignedExprs(asgns: seq<Assignment>): seq<Expr> {
    seq(|asgns|, i requires 0 <= i < |asgns| => asgns[i].value)
  }

  function SortExprs(keys: seq<OrderKey>): seq<Expr> {
    seq(|keys|, i requires 0 <= i < |keys| => keys[i].expr)
  }

  // ---- Pipelines and statements ----

  function MountPath(path: PathExpr): string {
    Render(seq(|path.segments|, i requires 0 <= i < |path.segments| => path.segments[i].name))
  }

  function ReceiverOf(mounts: Mounts, source: Source): Option<Driver> {
    if !source.FromPath? then None
    else
      match ResolvePath(mounts, MountPath(source.path))
      case Some((driver, _)) => Some(driver)
      case None => None
  }

  /** A bare source name must be in scope or spell a realm. */
  function ResolveName(source: Source, scope: Scope): (r: Option<ResolveError>)
    ensures r.Some? ==> source.FromName? && r == Some(UnknownBinding(source.name))
  {
    if source.FromName? && RealmOf(source.name).None? && source.name !in scope then Some(UnknownBinding(source.name)) else None
  }

  /** Gates the verb of a routed target; an unrouted one is left to evaluation. */
  function GateVerb(mounts: Mounts, verb: EffectVerb, target: PathExpr): (r: Option<ResolveError>)
    ensures r.Some? ==> r.value.UnsupportedVerb?
  {
    match ResolvePath(mounts, MountPath(target))
    case None => None
    case Some((driver, sub)) =>
      var vfs := "/" + driver.id + "/" + sub;
      if driver.supports(vfs, verb) then None else Some(UnsupportedVerb(vfs, verb))
  }

  function ResolveSource(mounts: Mounts, source: Source, scope: Scope): Calls
    decreases source
  {
    if ResolveName(source, scope).Some? then Err(ResolveName(source, scope).value)
    else if source.Subquery? then ResolvePipeline(mounts, source.inner, scope)
    else Ok([])
  }

  function ResolvePipeline(mounts: Mounts, p: Pipeline, scope: Scope): Calls
    decreases p, 1
  {
    var inner :- ResolveSource(mounts, p.source, scope);
    var rest :- ResolveOps(mounts, p.ops, scope, ReceiverOf(mounts, p.source));
    Ok(inner + rest)
  }

  function ResolveOps(mounts: Mounts, ops: seq<PipeOp>, scope: Scope, receiver: Option<Driver>): Calls
    decreases ops, 0
  {
    if ops == [] then Ok([])
    else
      var first :- ResolveOp(mounts, ops[0], scope, receiver);
      var rest :- ResolveOps(mounts, ops[1..], scope, receiver);
      Ok(first + rest)
  }

  function ResolveOp(mounts: Mounts, op: PipeOp, scope: Scope, receiver: Option<Driver>): Calls
    decreases op
  {
    match op
    case CallOp(call) =>
      (match LowerCall(mounts, call)
       case Ok(lowering) => Ok([lowering.resolved])
       case Err(e) => Err(e))
    case Union(sub) => ResolvePipeline(mounts, sub, scope)
    case Except(sub) => ResolvePipeline(mounts, sub, scope)
    case Intersect(sub) => ResolvePipeline(mounts, sub, scope)
    case Join(source, on) =>
      var inner :- ResolveSource(mounts, source, scope);
      var rest :- ResolveExpr(mounts, on, receiver);
      Ok(inner + rest)
    case Switch(stage) => ResolveArms(mounts, stage.arms, scope, receiver)
    case _ => ResolveStageExprs(mounts, op, receiver)
  }

  /** The stages that carry nothing to resolve but expressions. */
  function ResolveStageExprs(mounts: Mounts, op: PipeOp, receiver: Option<Driver>): (r: Calls)
    ensures r.Err? ==> !r.error.UnknownBinding?
  {
    match op
    case Where(pred) => ResolveExpr(mounts, pred, receiver)
    case GroupBy(keys) => ResolveExprs(mounts, keys, receiver)
    case OrderBy(keys) => ResolveExprs(mounts, SortExprs(keys), receiver)
    case Select(projs) => ResolveExprs(mounts, ProjectionExprs(projs), receiver)
    case Aggregate(projs) => ResolveExprs(mounts, ProjectionExprs(projs), receiver)
    case Extend(asgns) => ResolveExprs(mounts, AssignedExprs(asgns), receiver)
    case Set(asgns) => ResolveExprs(mounts, AssignedExprs(asgns), receiver)
    case _ => Ok([])
  }

  function ResolveArms(mounts: Mounts, arms: seq<SwitchArm>, scope: Scope, receiver: Option<Driver>): Calls
    decreases arms, 0
  {
    if arms == [] then Ok([])
    else
      var ops :- ResolveOps(mounts, arms[0].ops, scope, receiver);
      var write :- ResolveArmWrite(mounts, arms[0].write, receiver);
      var rest :- ResolveArms(mounts, arms[1..], scope, receiver);
      Ok(ops + write + rest)
  }

  function ResolveArmWrite(mounts: Mounts, write: Option<ArmWrite>, receiver: Option<Driver>): (r: Calls)
    ensures r.Err? ==> !r.error.UnknownBinding?
  {
    match write
    case None => Ok([])
    case Some(w) =>
      match GateVerb(mounts, w.verb, w.target)
      case Some(e) => Err(e)
      case None => if w.returning.None? then Ok([]) else ResolveExprs(mounts, ProjectionExprs(w.returning.value), receiver)
  }

  function ResolveEffect(mounts: Mounts, effect: EffectStmt, scope: Scope): Calls {
    match GateVerb(mounts, effect.verb, effect.target)
    case Some(e) => Err(e)
    case None => if effect.body.BodyPipeline? then ResolvePipeline(mounts, effect.body.pipeline, scope) else Ok([])
  }

  function ResolveStatement(mounts: Mounts, stmt: Statement, scope: Scope): Calls
    decreases stmt, 0
  {
    match stmt
    case Query(p) => ResolvePipeline(mounts, p, scope)
    case Effect(effect) => ResolveEffect(mounts, effect, scope)
    case PlanWrap(_, inner) => ResolveStatement(mounts, inner, scope)
    case Let(name, value, body) =>
      var bound :- ResolveStatement(mounts, value, scope);
      var rest :- ResolveStatement(mounts, body, scope + {name});
      Ok(bound + rest)
    case Transaction(members) => ResolveMembers(mounts, members, scope)
    case Ddl(doPlan, asQuery) =>
      var first :- if doPlan.Some? then ResolveStatement(mounts, doPlan.value, scope) else Ok([]);
      var second :- if asQuery.Some? then ResolveStatement(mounts, asQuery.value, scope) else Ok([]);
      Ok(first + second)
  }

  function ResolveMembers(mounts: Mounts, members: seq<Statement>, scope: Scope): Calls
    decreases members, 1
  {
    if members == [] then Ok([])
    else
      var first :- ResolveStatement(mounts, members[0], scope);
      var rest :- ResolveMembers(mounts, members[1..], scope);
      Ok(first + rest)
  }
}
