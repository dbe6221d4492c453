/** The host-realm canon over a pipeline's read positions, and that evaluation does not see it. */
module HostCanon {
  import opened Wrappers
  import opened Types
  import opened Ast
  import opened Errors
  import opened Paths
  import opened Registry
  import opened Relations

  // ---- The rewrite ----

  function DropTwo(segments: seq<PathSegment>): seq<PathSegment> {
    if |segments| < 2 then [] else segments[2..]
  }

  /** A peeled path loses its two leading segments, the realm and its host. */
  function CanonPath(mounts: Mounts, path: PathExpr): Result<PathExpr, HostScopeError> {
    var full := Render(SegmentNames(path.segments));
    var canonical :- CanonicalizeHostPath(mounts, full);
    Ok(if canonical != full then path.(segments := DropTwo(path.segments)) else path)
  }

  function CanonSource(mounts: Mounts, source: Source): Result<Source, HostScopeError>
    decreases source
  {
    match source
    case FromPath(path) =>
      var canon :- CanonPath(mounts, path);
      Ok(FromPath(canon))
    case Subquery(inner) =>
      var canon :- CanonPipeline(mounts, inner);
      Ok(Subquery(canon))
    case _ => Ok(source)
  }

  function CanonPipeline(mounts: Mounts, p: Pipeline): Result<Pipeline, HostScopeError>
    decreases p, 1
  {
    var source :- CanonSource(mounts, p.source);
    var ops :- CanonOps(mounts, p.ops);
    Ok(Pipeline(source, ops))
  }

  function CanonOps(mounts: Mounts, ops: seq<PipeOp>): (r: Result<seq<PipeOp>, HostScopeError>)
    ensures r.Ok? ==> |r.value| == |ops|
    decreases ops, 0
  {
    if ops == [] then Ok([])
    else
      var first :- CanonOp(mounts, ops[0]);
      var rest :- CanonOps(mounts, ops[1..]);
      Ok([first] + rest)
  }

  function CanonOp(mounts: Mounts, op: PipeOp): Result<PipeOp, HostScopeError>
    decreases op
  {
    match op
    case Join(source, on) =>
      var canon :- CanonSource(mounts, source);
      Ok(Join(canon, on))
    case Union(sub) =>
      var canon :- CanonPipeline(mounts, sub);
      Ok(Union(canon))
    case Except(sub) =>
      var canon :- CanonPipeline(mounts, sub);
      Ok(Except(canon))
    case Intersect(sub) =>
      var canon :- CanonPipeline(mounts, sub);
      Ok(Intersect(canon))
    case _ => Ok(op)
  }

  // ---- Read positions ----

  /** The paths a pipeline reads, in the order they are written. */
  function ReadsOfSource(source: Source): seq<PathExpr>
    decreases source
  {
    match source
    case FromPath(path) => [path]
    case Subquery(inner) => Reads(inner)
    case _ => []
  }

  function Reads(p: Pipeline): seq<PathExpr>
    decreases p, 1
  {
    ReadsOfSource(p.source) + ReadsOfOps(p.ops)
  }

  function ReadsOfOps(ops: seq<PipeOp>): seq<PathExpr>
    decreases ops, 0
  {
    if ops == [] then [] else ReadsOfOp(ops[0]) + ReadsOfOps(ops[1..])
  }

  function ReadsOfOp(op: PipeOp): seq<PathExpr>
    decreases op
  {
    match op
    case Join(source, _) => ReadsOfSource(source)
    case Union(sub) => Reads(sub)
    case Except(sub) => Reads(sub)
    case Intersect(sub) => Reads(sub)
    case _ => []
  }

  function Rendered(path: PathExpr): string {
    Render(SegmentNames(path.segments))
  }

  ghost predicate Pairwise<T(!new)>(related: (T, T) -> bool, before: seq<T>, after: seq<T>) {
    |after| == |before| && forall i :: 0 <= i < |before| ==> related(before[i], after[i])
  }

  lemma PairwiseConcat<T(!new)>(related: (T, T) -> bool, a: seq<T>, b: seq<T>, x: seq<T>, y: seq<T>)
    requires Pairwise(related, a, x) && Pairwise(related, b, y)
    ensures Pairwise(related, a + b, x + y)
  {
  }

  /** Each path renders to the canon of its counterpart, and none is left in the hosts realm. */
  ghost predicate Canons(mounts: Mounts, before: seq<PathExpr>, after: seq<PathExpr>) {
    Pairwise((p, q) => IsCanonOf(mounts, p, q), before, after)
  }

  predicate IsCanonOf(mounts: Mounts, before: PathExpr, after: PathExpr) {
    && CanonicalizeHostPath(mounts, Rendered(before)) == Ok(Rendered(after))
    && LeadingSegment(Rendered(after)) != "hosts"
  }

  predicate AllClean(paths: seq<PathExpr>) {
    forall i :: 0 <= i < |paths| ==> Clean(SegmentNames(paths[i].segments))
  }

  lemma CanonPathRenders(mounts: Mounts, path: PathExpr)
    requires Clean(SegmentNames(path.segments)) && CanonPath(mounts, path).Ok?
    ensures IsCanonOf(mounts, path, CanonPath(mounts, path).value)
  {
    var names := SegmentNames(path.segments);
    CanonOfSegments(mounts, names);
    CanonLeavesTheRealm(mounts, names);
    if names != [] && names[0] == "hosts" {
      assert SegmentNames(DropTwo(path.segments)) == names[2..];
    }
  }

  lemma AllCleanConcat(a: seq<PathExpr>, b: seq<PathExpr>)
    requires AllClean(a + b)
    ensures AllClean(a) && AllClean(b)
  {
    assert forall i :: 0 <= i < |a| ==> (a + b)[i] == a[i];
    assert forall i :: 0 <= i < |b| ==> (a + b)[|a| + i] == b[i];
  }

  lemma {:induction false} CanonSourceReads(mounts: Mounts, source: Source)
    requires AllClean(ReadsOfSource(source)) && CanonSource(mounts, source).Ok?
    ensures Canons(mounts, ReadsOfSource(source), ReadsOfSource(CanonSource(mounts, source).value))
    decreases source
  {
    match source
    case FromPath(path) =>
      assert ReadsOfSource(source)[0] == path;
      CanonPathRenders(mounts, path);
    case Subquery(inner) => CanonReachesEveryRead(mounts, inner);
    case _ =>
  }

  /** The canonicalized tree renders, at every read position, to the canon of what stood there. */
  lemma {:induction false} CanonReachesEveryRead(mounts: Mounts, p: Pipeline)
    requires AllClean(Reads(p)) && CanonPipeline(mounts, p).Ok?
    ensures Canons(mounts, Reads(p), Reads(CanonPipeline(mounts, p).value))
    decreases p, 1
  {
    AllCleanConcat(ReadsOfSource(p.source), ReadsOfOps(p.ops));
    CanonSourceReads(mounts, p.source);
    CanonOpsReads(mounts, p.ops);
    PairwiseConcat((x, y) => IsCanonOf(mounts, x, y), ReadsOfSource(p.source), ReadsOfOps(p.ops),
                 ReadsOfSource(CanonSource(mounts, p.source).value), ReadsOfOps(CanonOps(mounts, p.ops).value));
  }

  lemma {:induction false} CanonOpsReads(mounts: Mounts, ops: seq<PipeOp>)
    requires AllClean(ReadsOfOps(ops)) && CanonOps(mounts, ops).Ok?
    ensures Canons(mounts, ReadsOfOps(ops), ReadsOfOps(CanonOps(mounts, ops).value))
    decreases ops, 0
  {
    if ops != [] {
      AllCleanConcat(ReadsOfOp(ops[0]), ReadsOfOps(ops[1..]));
      CanonOpReads(mounts, ops[0]);
      CanonOpsReads(mounts, ops[1..]);
      var first, rest := CanonOp(mounts, ops[0]).value, CanonOps(mounts, ops[1..]).value;
      assert CanonOps(mounts, ops).value[1..] == rest;
      PairwiseConcat((x, y) => IsCanonOf(mounts, x, y), ReadsOfOp(ops[0]), ReadsOfOps(ops[1..]), ReadsOfOp(first), ReadsOfOps(rest));
    }
  }

  lemma {:induction false} CanonOpReads(mounts: Mounts, op: PipeOp)
    requires AllClean(ReadsOfOp(op)) && CanonOp(mounts, op).Ok?
    ensures Canons(mounts, ReadsOfOp(op), ReadsOfOp(CanonOp(mounts, op).value))
    decreases op
  {
    match op
    case Join(source, _) => CanonSourceReads(mounts, source);
    case Union(sub) => CanonReachesEveryRead(mounts, sub);
    case Except(sub) => CanonReachesEveryRead(mounts, sub);
    case Intersect(sub) => CanonReachesEveryRead(mounts, sub);
    case _ =>
  }

  // ---- Evaluation peels the same way ----

  lemma ScanByRoute(w: World, p: PathExpr, q: PathExpr)
    requires ScanPath(w, p).Ok? && !HasSelection(q.segments)
    requires ResolvePath(w.mounts, Rendered(p)) == ResolvePath(w.mounts, Rendered(q))
    ensures ScanPath(w, q) == ScanPath(w, p)
  {
  }

  lemma CanonPathForm(mounts: Mounts, path: PathExpr, after: PathExpr)
    requires CanonPath(mounts, path) == Ok(after) && !HasSelection(path.segments)
    ensures !HasSelection(after.segments)
  {
    var segments := path.segments;
    assert forall i :: 0 <= i < |DropTwo(segments)| ==> DropTwo(segments)[i] == segments[i + 2];
  }

  lemma CanonScans(w: World, path: PathExpr, after: PathExpr)
    requires Clean(SegmentNames(path.segments)) && CanonPath(w.mounts, path) == Ok(after) && ScanPath(w, path).Ok?
    ensures ScanPath(w, after) == ScanPath(w, path)
  {
    CanonPathRenders(w.mounts, path);
    CanonLeavesTheRealm(w.mounts, SegmentNames(path.segments));
    CanonPathForm(w.mounts, path, after);
    ScanByRoute(w, path, after);
  }

  lemma {:induction false} CanonSourceEvaluates(w: World, source: Source, env: Env)
    requires AllClean(ReadsOfSource(source)) && CanonSource(w.mounts, source).Ok? && EvalSource(w, source, env).Ok?
    ensures EvalSource(w, CanonSource(w.mounts, source).value, env) == EvalSource(w, source, env)
    decreases source
  {
    match source
    case FromPath(path) =>
      assert ReadsOfSource(source)[0] == path;
      CanonScans(w, path, CanonPath(w.mounts, path).value);
    case Subquery(inner) => CanonEvaluatesAlike(w, inner, env);
    case _ =>
  }

  /** A pipeline that evaluates evaluates to the same relation after its paths are canonicalized. */
  lemma {:induction false} CanonEvaluatesAlike(w: World, p: Pipeline, env: Env)
    requires AllClean(Reads(p)) && CanonPipeline(w.mounts, p).Ok? && FoldQuery(w, p, env).Ok?
    ensures FoldQuery(w, CanonPipeline(w.mounts, p).value, env) == FoldQuery(w, p, env)
    decreases p, 1
  {
    AllCleanConcat(ReadsOfSource(p.source), ReadsOfOps(p.ops));
    CanonSourceEvaluates(w, p.source, env);
    CanonOpsEvaluate(w, EvalSource(w, p.source, env).value, p.ops, env);
  }

  lemma {:induction false} CanonOpsEvaluate(w: World, src: PlanSource, ops: seq<PipeOp>, env: Env)
    requires AllClean(ReadsOfOps(ops)) && CanonOps(w.mounts, ops).Ok? && FoldOps(w, src, ops, env).Ok?
    ensures FoldOps(w, src, CanonOps(w.mounts, ops).value, env) == FoldOps(w, src, ops, env)
    decreases ops, 0
  {
    if ops != [] {
      AllCleanConcat(ReadsOfOp(ops[0]), ReadsOfOps(ops[1..]));
      CanonOpEvaluates(w, src, ops[0], env);
      CanonOpsEvaluate(w, FoldOp(w, src, ops[0], env).value, ops[1..], env);
      assert CanonOps(w.mounts, ops).value[1..] == CanonOps(w.mounts, ops[1..]).value;
    }
  }

  lemma SetStage(w: World, input: PlanSource, op: PipeOp, env: Env)
    requires op.Union? || op.Except? || op.Intersect?
    ensures FoldOp(w, input, op, env) == Combine(input, FoldQuery(w, op.sub, env))
  {
  }

  lemma JoinStage(w: World, input: PlanSource, op: PipeOp, env: Env)
    requires op.Join?
    ensures FoldOp(w, input, op, env) == JoinWithSource(input, EvalSource(w, op.source, env))
  {
  }

  lemma CanonOpForm(mounts: Mounts, op: PipeOp, after: PipeOp)
    requires CanonOp(mounts, op) == Ok(after)
    ensures op.Union? || op.Except? || op.Intersect? ==>
      (after.Union? || after.Except? || after.Intersect?) && CanonPipeline(mounts, op.sub) == Ok(after.sub) && ReadsOfOp(op) == Reads(op.sub)
    ensures op.Join? ==> after.Join? && CanonSource(mounts, op.source) == Ok(after.source)
    ensures !op.Union? && !op.Except? && !op.Intersect? && !op.Join? ==> after == op
  {
  }

  lemma {:induction false} CanonOpEvaluates(w: World, input: PlanSource, op: PipeOp, env: Env)
    requires AllClean(ReadsOfOp(op)) && CanonOp(w.mounts, op).Ok? && FoldOp(w, input, op, env).Ok?
    ensures FoldOp(w, input, CanonOp(w.mounts, op).value, env) == FoldOp(w, input, op, env)
    decreases op
  {
    var after := CanonOp(w.mounts, op).value;
    CanonOpForm(w.mounts, op, after);
    if op.Union? || op.Except? || op.Intersect? {
      SetStage(w, input, op, env);
      SetStage(w, input, after, env);
      CanonEvaluatesAlike(w, op.sub, env);
    } else if op.Join? {
      JoinStage(w, input, op, env);
      JoinStage(w, input, after, env);
      CanonSourceEvaluates(w, op.source, env);
    }
  }
}
