/**
 Effect plans: nodes with dependency edges, relabelling and sequencing, and what sequencing means for
 the order effects are applied in.
 */
module Plan {
  import opened Wrappers
  import opened Types
  import opened Ast

  datatype EffectKind = Read | List | InsertRows | UpsertRows | UpdateRows | RemoveRows | CallProc(proc: string)
  {
    predicate IsInherentlyIrreversible() {
      RemoveRows?
    }
  }

  datatype Target = Target(driver: string, path: string)

  datatype Affected = Exactly(n: nat) | AtMost(n: nat) | Unestimated

  datatype EffectNode = EffectNode(
    id: nat,
    kind: EffectKind,
    target: Target,
    args: RowBatch,
    selector: Option<RowBatch>,
    irreversible: bool,
    affected: Affected)

  /** An edge `(parent, child)` means the parent is applied first. */
  datatype Plan = Plan(nodes: seq<EffectNode>, deps: seq<(nat, nat)>, returning: Option<Schema>)

  const PURE := Plan([], [], None)

  /** A new node: a removal is irreversible from the start. */
  function NewNode(id: nat, kind: EffectKind, target: Target): EffectNode {
    EffectNode(id, kind, target, EMPTY_BATCH, None, kind.IsInherentlyIrreversible(), Unestimated)
  }

  /** Some edge leads to `id`. */
  predicate HasParent(deps: seq<(nat, nat)>, id: nat) {
    deps != [] && (deps[0].1 == id || HasParent(deps[1..], id))
  }

  predicate HasChild(deps: seq<(nat, nat)>, id: nat) {
    deps != [] && (deps[0].0 == id || HasChild(deps[1..], id))
  }

  lemma {:induction false} HasParentMeans(deps: seq<(nat, nat)>, id: nat)
    ensures HasParent(deps, id) <==> exists d :: d in deps && d.1 == id
  {
    if deps != [] {
      HasParentMeans(deps[1..], id);
      assert forall d :: d in deps <==> d == deps[0] || d in deps[1..];
      assert deps[0] in deps;
    }
  }

  lemma {:induction false} HasChildMeans(deps: seq<(nat, nat)>, id: nat)
    ensures HasChild(deps, id) <==> exists d :: d in deps && d.0 == id
  {
    if deps != [] {
      HasChildMeans(deps[1..], id);
      assert forall d :: d in deps <==> d == deps[0] || d in deps[1..];
      assert deps[0] in deps;
    }
  }

  /** The ids, in node order, of the nodes nothing in the plan precedes. */
  function Roots(p: Plan, nodes: seq<EffectNode>): seq<nat> {
    if nodes == [] then []
    else (if HasParent(p.deps, nodes[0].id) then [] else [nodes[0].id]) + Roots(p, nodes[1..])
  }

  function Sinks(p: Plan, nodes: seq<EffectNode>): seq<nat> {
    if nodes == [] then []
    else (if HasChild(p.deps, nodes[0].id) then [] else [nodes[0].id]) + Sinks(p, nodes[1..])
  }

  lemma {:induction false} RootsMean(p: Plan, nodes: seq<EffectNode>)
    ensures forall id :: id in Roots(p, nodes) <==> (exists n :: n in nodes && n.id == id) && !HasParent(p.deps, id)
  {
    if nodes != [] {
      RootsMean(p, nodes[1..]);
      assert forall n :: n in nodes <==> n == nodes[0] || n in nodes[1..];
    }
  }

  lemma {:induction false} SinksMean(p: Plan, nodes: seq<EffectNode>)
    ensures forall id :: id in Sinks(p, nodes) <==> (exists n :: n in nodes && n.id == id) && !HasChild(p.deps, id)
  {
    if nodes != [] {
      SinksMean(p, nodes[1..]);
      assert forall n :: n in nodes <==> n == nodes[0] || n in nodes[1..];
    }
  }

  function EdgesFrom(parent: nat, children: seq<nat>): (r: seq<(nat, nat)>) {
    if children == [] then [] else [(parent, children[0])] + EdgesFrom(parent, children[1..])
  }

  function Edges(parents: seq<nat>, children: seq<nat>): (r: seq<(nat, nat)>) {
    if parents == [] then [] else EdgesFrom(parents[0], children) + Edges(parents[1..], children)
  }

  lemma {:induction false} EdgesFromMean(parent: nat, children: seq<nat>)
    ensures forall d :: d in EdgesFrom(parent, children) <==> d.0 == parent && d.1 in children
  {
    if children != [] {
      EdgesFromMean(parent, children[1..]);
    }
  }

  lemma {:induction false} EdgesMean(parents: seq<nat>, children: seq<nat>)
    ensures forall d :: d in Edges(parents, children) <==> d.0 in parents && d.1 in children
  {
    if parents != [] {
      EdgesFromMean(parents[0], children);
      EdgesMean(parents[1..], children);
    }
  }

  /** Sequencing: every root of `b` gains every sink of `a` as a parent. */
  function Then(a: Plan, b: Plan): Plan {
    Plan(
      a.nodes + b.nodes,
      a.deps + b.deps + Edges(Sinks(a, a.nodes), Roots(b, b.nodes)),
      if b.returning.Some? then b.returning else a.returning)
  }

  lemma NothingThen(b: Plan)
    ensures Then(PURE, b) == b
  {
    assert [] + b.nodes == b.nodes && [] + b.deps + Edges([], Roots(b, b.nodes)) == b.deps;
  }

  function RelabelNodes(nodes: seq<EffectNode>, base: nat): (r: seq<EffectNode>)
    ensures |r| == |nodes|
    ensures forall i :: 0 <= i < |nodes| ==> r[i] == nodes[i].(id := nodes[i].id + base)
  {
    seq(|nodes|, i requires 0 <= i < |nodes| => nodes[i].(id := nodes[i].id + base))
  }

  function RelabelDeps(deps: seq<(nat, nat)>, base: nat): (r: seq<(nat, nat)>)
    ensures |r| == |deps|
    ensures forall i :: 0 <= i < |deps| ==> r[i] == (deps[i].0 + base, deps[i].1 + base)
  {
    seq(|deps|, i requires 0 <= i < |deps| => (deps[i].0 + base, deps[i].1 + base))
  }

  function Relabel(p: Plan, base: nat): Plan {
    Plan(RelabelNodes(p.nodes, base), RelabelDeps(p.deps, base), p.returning)
  }

  /** Shifts every id of the plan by `base`, node by node and edge by edge, and counts the ids consumed. */
  method RelabelPlan(p: Plan, base: nat) returns (r: Plan, used: nat)
    ensures r == Relabel(p, base) && used == |p.nodes|
  {
    var nodes, deps := p.nodes, p.deps;
    for i := 0 to |nodes|
      invariant |nodes| == |p.nodes|
      invariant forall j :: 0 <= j < i ==> nodes[j] == p.nodes[j].(id := p.nodes[j].id + base)
      invariant forall j :: i <= j < |nodes| ==> nodes[j] == p.nodes[j]
    {
      nodes := nodes[i := nodes[i].(id := nodes[i].id + base)];
    }
    for i := 0 to |deps|
      invariant |deps| == |p.deps|
      invariant forall j :: 0 <= j < i ==> deps[j] == (p.deps[j].0 + base, p.deps[j].1 + base)
      invariant forall j :: i <= j < |deps| ==> deps[j] == p.deps[j]
    {
      deps := deps[i := (deps[i].0 + base, deps[i].1 + base)];
    }
    assert nodes == RelabelNodes(p.nodes, base) && deps == RelabelDeps(p.deps, base);
    return Plan(nodes, deps, p.returning), |p.nodes|;
  }

  /** Hands out dense ids from 0 and accumulates a plan. */
  class PlanBuilder {
    var next: nat
    var plan: Plan

    constructor ()
      ensures next == 0 && plan == PURE
    {
      next, plan := 0, PURE;
    }

    method NextId() returns (id: nat)
      modifies this`next
      ensures id == old(next) && next == old(next) + 1
    {
      id := next;
      next := next + 1;
    }

    method Push(node: EffectNode) returns (id: nat)
      modifies this`plan
      ensures id == node.id && plan == old(plan).(nodes := old(plan).nodes + [node])
    {
      plan := plan.(nodes := plan.nodes + [node]);
      id := node.id;
    }

    method DependsOn(child: nat, parent: nat)
      modifies this`plan
      ensures plan == old(plan).(deps := old(plan).deps + [(parent, child)])
    {
      plan := plan.(deps := plan.deps + [(parent, child)]);
    }
  }

  // ---- Well-formed plans ----

  /** Ids are `base`, `base + 1`, … in node order, and every edge runs from a smaller id to a larger one. */
  predicate WellFormedAt(p: Plan, base: nat) {
    && (forall i :: 0 <= i < |p.nodes| ==> p.nodes[i].id == base + i)
    && (forall d :: d in p.deps ==> base <= d.0 < d.1 < base + |p.nodes|)
  }

  predicate WellFormed(p: Plan) {
    WellFormedAt(p, 0)
  }

  lemma RelabelIsWellFormed(p: Plan, base: nat)
    requires WellFormed(p)
    ensures WellFormedAt(Relabel(p, base), base)
  {
  }

  lemma ThenIsWellFormed(a: Plan, b: Plan)
    requires WellFormed(a) && WellFormedAt(b, |a.nodes|)
    ensures WellFormed(Then(a, b))
  {
    var p := Then(a, b);
    SinksMean(a, a.nodes);
    RootsMean(b, b.nodes);
    EdgesMean(Sinks(a, a.nodes), Roots(b, b.nodes));
    forall d | d in p.deps
      ensures d.0 < d.1 < |p.nodes|
    {
      if d !in a.deps && d !in b.deps {
        var m :| m in a.nodes && m.id == d.0;
        var n :| n in b.nodes && n.id == d.1;
      }
    }
  }

  // ---- Order of application ----

  ghost predicate IsPath(deps: seq<(nat, nat)>, path: seq<nat>) {
    path != [] && forall i :: 0 <= i < |path| - 1 ==> (path[i], path[i + 1]) in deps
  }

  ghost predicate Joins(p: Plan, path: seq<nat>, a: nat, b: nat) {
    IsPath(p.deps, path) && path[0] == a && path[|path| - 1] == b
  }

  /** `b` depends, directly or through others, on `a`: the interpreter must apply `a` first. */
  ghost predicate Precedes(p: Plan, a: nat, b: nat) {
    exists path :: Joins(p, path, a, b) && |path| >= 2
  }

  lemma PathsCompose(p: Plan, x: seq<nat>, y: seq<nat>, a: nat, m: nat, n: nat, b: nat)
    requires Joins(p, x, a, m) && Joins(p, y, n, b) && (m, n) in p.deps
    ensures Precedes(p, a, b)
  {
    var path := x + y;
    forall i | 0 <= i < |path| - 1
      ensures (path[i], path[i + 1]) in p.deps
    {
      if i < |x| - 1 {
        assert path[i] == x[i] && path[i + 1] == x[i + 1];
      } else if i >= |x| {
        assert path[i] == y[i - |x|] && path[i + 1] == y[i + 1 - |x|];
      }
    }
    assert Joins(p, path, a, b);
  }

  lemma PrecedesInLarger(p: Plan, q: Plan, a: nat, b: nat)
    requires Precedes(p, a, b) && forall d :: d in p.deps ==> d in q.deps
    ensures Precedes(q, a, b)
  {
    var path :| Joins(p, path, a, b) && |path| >= 2;
    assert Joins(q, path, a, b);
  }

  lemma PrecedesIsTransitive(p: Plan, a: nat, b: nat, c: nat)
    requires Precedes(p, a, b) && Precedes(p, b, c)
    ensures Precedes(p, a, c)
  {
    var x :| Joins(p, x, a, b) && |x| >= 2;
    var y :| Joins(p, y, b, c) && |y| >= 2;
    assert Joins(p, y[1..], y[1], c) by {
      forall i | 0 <= i < |y| - 2
        ensures (y[1..][i], y[1..][i + 1]) in p.deps
      {
        assert (y[i + 1], y[i + 2]) in p.deps;
      }
    }
    PathsCompose(p, x, y[1..], a, b, y[1], c);
  }

  /** In a well-formed plan, order of application agrees with the ids, so it has no cycle. */
  lemma {:induction false} PathsAscend(p: Plan, base: nat, path: seq<nat>)
    requires WellFormedAt(p, base) && IsPath(p.deps, path) && |path| >= 2
    ensures path[0] < path[|path| - 1]
  {
    assert (path[0], path[1]) in p.deps;
    if |path| > 2 {
      forall i | 0 <= i < |path| - 2
        ensures (path[1..][i], path[1..][i + 1]) in p.deps
      {
        assert (path[i + 1], path[i + 2]) in p.deps;
      }
      PathsAscend(p, base, path[1..]);
    }
  }

  lemma WellFormedIsAcyclic(p: Plan, a: nat)
    requires WellFormed(p)
    ensures !Precedes(p, a, a)
  {
    if path :| Joins(p, path, a, a) && |path| >= 2 {
      PathsAscend(p, 0, path);
    }
  }

  lemma {:induction false} ReachesSink(p: Plan, base: nat, a: nat) returns (path: seq<nat>)
    requires WellFormedAt(p, base) && base <= a < base + |p.nodes|
    ensures IsPath(p.deps, path) && path[0] == a && path[|path| - 1] in Sinks(p, p.nodes)
    decreases base + |p.nodes| - a
  {
    assert p.nodes[a - base].id == a;
    HasChildMeans(p.deps, a);
    if HasChild(p.deps, a) {
      var d :| d in p.deps && d.0 == a;
      var rest := ReachesSink(p, base, d.1);
      path := [a] + rest;
      assert forall i :: 0 < i < |path| ==> path[i] == rest[i - 1];
    } else {
      SinksMean(p, p.nodes);
      path := [a];
    }
  }

  lemma {:induction false} ReachedFromRoot(p: Plan, base: nat, b: nat) returns (path: seq<nat>)
    requires WellFormedAt(p, base) && base <= b < base + |p.nodes|
    ensures IsPath(p.deps, path) && path[0] in Roots(p, p.nodes) && path[|path| - 1] == b
    decreases b
  {
    assert p.nodes[b - base].id == b;
    HasParentMeans(p.deps, b);
    if HasParent(p.deps, b) {
      var d :| d in p.deps && d.1 == b;
      var rest := ReachedFromRoot(p, base, d.0);
      path := rest + [b];
      forall i | 0 <= i < |path| - 1
        ensures (path[i], path[i + 1]) in p.deps
      {
        if i < |rest| - 1 {
          assert path[i] == rest[i] && path[i + 1] == rest[i + 1];
        }
      }
    } else {
      RootsMean(p, p.nodes);
      path := [b];
    }
  }

  /** After sequencing, every node of the first plan precedes every node of the second. */
  lemma ThenSequences(a: Plan, b: Plan, x: nat, y: nat)
    requires WellFormed(a) && WellFormedAt(b, |a.nodes|)
    requires x < |a.nodes| <= y < |a.nodes| + |b.nodes|
    ensures Precedes(Then(a, b), x, y)
  {
    var p := Then(a, b);
    var up := ReachesSink(a, 0, x);
    var down := ReachedFromRoot(b, |a.nodes|, y);
    EdgesMean(Sinks(a, a.nodes), Roots(b, b.nodes));
    assert IsPath(p.deps, up) && IsPath(p.deps, down);
    PathsCompose(p, up, down, x, up[|up| - 1], down[0], y);
  }

  /** Sequencing and relabelling neither lose nor invent an order inside either part. */
  lemma ThenKeepsOrder(a: Plan, b: Plan, x: nat, y: nat)
    requires WellFormed(a) && WellFormedAt(b, |a.nodes|)
    requires x < |a.nodes| && y < |a.nodes|
    ensures Precedes(Then(a, b), x, y) <==> Precedes(a, x, y)
  {
    var p := Then(a, b);
    ThenIsWellFormed(a, b);
    RootsMean(b, b.nodes);
    EdgesMean(Sinks(a, a.nodes), Roots(b, b.nodes));
    if Precedes(a, x, y) {
      PrecedesInLarger(a, p, x, y);
    }
    if path :| Joins(p, path, x, y) && |path| >= 2 {
      forall i | 0 <= i < |path| - 1
        ensures (path[i], path[i + 1]) in a.deps
      {
        StaysBelow(p, path, i + 1);
        assert (path[i], path[i + 1]) in p.deps && path[i + 1] <= y;
      }
      assert Joins(a, path, x, y);
    }
  }

  lemma ThenKeepsOrderOfSecond(a: Plan, b: Plan, x: nat, y: nat)
    requires WellFormed(a) && WellFormedAt(b, |a.nodes|)
    requires x >= |a.nodes| && y >= |a.nodes|
    ensures Precedes(Then(a, b), x, y) <==> Precedes(b, x, y)
  {
    var p := Then(a, b);
    ThenIsWellFormed(a, b);
    SinksMean(a, a.nodes);
    EdgesMean(Sinks(a, a.nodes), Roots(b, b.nodes));
    if Precedes(b, x, y) {
      PrecedesInLarger(b, p, x, y);
    }
    if path :| Joins(p, path, x, y) && |path| >= 2 {
      forall i | 0 <= i < |path| - 1
        ensures (path[i], path[i + 1]) in b.deps
      {
        StaysAbove(p, path, i);
        assert (path[i], path[i + 1]) in p.deps && path[i] >= x;
      }
      assert Joins(b, path, x, y);
    }
  }

  lemma {:induction false} StaysAbove(p: Plan, path: seq<nat>, i: nat)
    requires WellFormed(p) && IsPath(p.deps, path) && i < |path|
    ensures path[0] <= path[i]
  {
    if i > 0 {
      StaysAbove(p, path, i - 1);
      assert (path[i - 1], path[i - 1 + 1]) in p.deps;
    }
  }

  lemma EdgeShifts(p: Plan, base: nat, x: nat, y: nat)
    ensures (x + base, y + base) in Relabel(p, base).deps <==> (x, y) in p.deps
  {
    var deps := Relabel(p, base).deps;
    if (x, y) in p.deps {
      var k :| 0 <= k < |p.deps| && p.deps[k] == (x, y);
      assert deps[k] == (x + base, y + base);
    }
    if (x + base, y + base) in deps {
      var k :| 0 <= k < |deps| && deps[k] == (x + base, y + base);
      assert p.deps[k] == (x, y);
    }
  }

  function Shift(path: seq<nat>, base: nat): (r: seq<nat>)
    ensures |r| == |path| && forall i :: 0 <= i < |path| ==> r[i] == path[i] + base
  {
    seq(|path|, i requires 0 <= i < |path| => path[i] + base)
  }

  lemma PathShifts(p: Plan, base: nat, path: seq<nat>)
    ensures IsPath(Relabel(p, base).deps, Shift(path, base)) <==> IsPath(p.deps, path)
  {
    var shifted := Shift(path, base);
    forall i | 0 <= i < |path| - 1
      ensures (shifted[i], shifted[i + 1]) in Relabel(p, base).deps <==> (path[i], path[i + 1]) in p.deps
    {
      EdgeShifts(p, base, path[i], path[i + 1]);
    }
  }

  /** Relabelling shifts the order of application along with the ids. */
  lemma RelabelKeepsOrder(p: Plan, base: nat, x: nat, y: nat)
    ensures Precedes(Relabel(p, base), x + base, y + base) <==> Precedes(p, x, y)
  {
    var q := Relabel(p, base);
    if path :| Joins(p, path, x, y) && |path| >= 2 {
      PathShifts(p, base, path);
      assert Joins(q, Shift(path, base), x + base, y + base);
    }
    if path :| Joins(q, path, x + base, y + base) && |path| >= 2 {
      RelabelledPathIsAbove(p, base, path);
      var back: seq<nat> := seq(|path|, i requires 0 <= i < |path| => path[i] - base);
      assert Shift(back, base) == path;
      PathShifts(p, base, back);
      assert Joins(p, back, x, y);
    }
  }

  lemma RelabelledPathIsAbove(p: Plan, base: nat, path: seq<nat>)
    requires IsPath(Relabel(p, base).deps, path) && |path| >= 2
    ensures forall i :: 0 <= i < |path| ==> path[i] >= base
  {
    forall i | 0 <= i < |path|
      ensures path[i] >= base
    {
      var j := if i + 1 < |path| then i else i - 1;
      assert (path[j], path[j + 1]) in Relabel(p, base).deps;
    }
  }

  lemma StaysBelow(p: Plan, path: seq<nat>, i: nat)
    requires WellFormed(p) && IsPath(p.deps, path) && i < |path|
    ensures path[i] <= path[|path| - 1]
  {
    if i < |path| - 1 {
      forall j | 0 <= j < |path| - i - 1
        ensures (path[i..][j], path[i..][j + 1]) in p.deps
      {
        assert (path[i + j], path[i + j + 1]) in p.deps;
      }
      PathsAscend(p, 0, path[i..]);
    }
  }
}
