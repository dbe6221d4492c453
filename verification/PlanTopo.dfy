/** The deterministic topological walk that fixes the order effects are committed in. */
module PlanTopo {
  import opened Wrappers
  import opened Plan

  function Ids(nodes: seq<EffectNode>): (r: set<nat>)
    ensures forall id :: id in r <==> exists i :: 0 <= i < |nodes| && nodes[i].id == id
    ensures |r| <= |nodes|
  {
    if nodes == [] then {}
    else
      var rest := Ids(nodes[1..]);
      assert forall i :: 0 <= i < |nodes| - 1 ==> nodes[1..][i] == nodes[i + 1];
      {nodes[0].id} + rest
  }

  function Elements(s: seq<nat>): (r: set<nat>)
    ensures forall x :: x in r <==> x in s
  {
    set x | x in s
  }

  /** A node of the plan, not yet done, whose parents in the plan all are. */
  ghost predicate ReadyAfter(p: Plan, done: set<nat>, id: nat) {
    && id in Ids(p.nodes)
    && id !in done
    && forall d :: d in p.deps && d.1 == id && d.0 in Ids(p.nodes) ==> d.0 in done
  }

  /** Position `k` of the list holds a node that is ready once the earlier positions are done. */
  ghost predicate StepReady(p: Plan, order: seq<nat>, k: nat)
    requires k < |order|
  {
    ReadyAfter(p, Elements(order[..k]), order[k])
  }

  /** … and the smallest such node. */
  ghost predicate StepSmallest(p: Plan, order: seq<nat>, k: nat)
    requires k < |order|
  {
    forall id :: ReadyAfter(p, Elements(order[..k]), id) ==> order[k] <= id
  }

  /** Nodes of the plan, each once and after all its parents. */
  ghost predicate Respects(p: Plan, order: seq<nat>) {
    forall k :: 0 <= k < |order| ==> StepReady(p, order, k)
  }

  ghost predicate SmallestFirst(p: Plan, order: seq<nat>) {
    forall k :: 0 <= k < |order| ==> StepSmallest(p, order, k)
  }

  /** Every node exactly once, each after all its parents. */
  ghost predicate Topological(p: Plan, order: seq<nat>) {
    |order| == |p.nodes| && Respects(p, order)
  }

  lemma ElementsOfPrefix(order: seq<nat>, k: nat)
    requires k < |order|
    ensures Elements(order[..k + 1]) == Elements(order[..k]) + {order[k]}
  {
    assert order[..k + 1] == order[..k] + [order[k]];
  }

  lemma ElementsOfAppend(order: seq<nat>, next: nat)
    ensures Elements(order + [next]) == Elements(order) + {next}
  {
  }

  lemma OneMoreStep(p: Plan, order: seq<nat>, next: nat)
    requires Respects(p, order) && SmallestFirst(p, order)
    requires ReadyAfter(p, Elements(order), next)
    requires forall id :: ReadyAfter(p, Elements(order), id) ==> next <= id
    ensures Respects(p, order + [next]) && SmallestFirst(p, order + [next])
  {
    var longer := order + [next];
    assert longer[..|order|] == order;
    forall k | 0 <= k < |longer|
      ensures StepReady(p, longer, k) && StepSmallest(p, longer, k)
    {
      if k < |order| {
        assert longer[..k] == order[..k];
        assert StepReady(p, order, k) && StepSmallest(p, order, k);
      }
    }
  }

  // ---- Counting edges ----

  /** How many edges into `child` start at a known node not yet emitted. */
  function Waiting(deps: seq<(nat, nat)>, known: set<nat>, child: nat, emitted: set<nat>): nat {
    if deps == [] then 0
    else
      var here := if deps[0].1 == child && deps[0].0 in known - emitted then 1 else 0;
      here + Waiting(deps[1..], known, child, emitted)
  }

  /** How many edges run from `parent` to `child`. */
  function Links(deps: seq<(nat, nat)>, parent: nat, child: nat): nat {
    if deps == [] then 0 else (if deps[0] == (parent, child) then 1 else 0) + Links(deps[1..], parent, child)
  }

  lemma {:induction false} EmittingReleases(deps: seq<(nat, nat)>, known: set<nat>, child: nat, emitted: set<nat>, id: nat)
    requires id in known && id !in emitted
    ensures Waiting(deps, known, child, emitted) == Waiting(deps, known, child, emitted + {id}) + Links(deps, id, child)
  {
    if deps != [] {
      EmittingReleases(deps[1..], known, child, emitted, id);
    }
  }

  lemma {:induction false} NothingWaits(deps: seq<(nat, nat)>, known: set<nat>, child: nat, emitted: set<nat>)
    ensures Waiting(deps, known, child, emitted) == 0 <==>
            forall d :: d in deps && d.1 == child && d.0 in known ==> d.0 in emitted
  {
    if deps != [] {
      NothingWaits(deps[1..], known, child, emitted);
      assert forall d :: d in deps <==> d == deps[0] || d in deps[1..];
    }
  }

  // ---- The walk ----

  predicate Ascending(s: seq<nat>) {
    forall i, j :: 0 <= i < j < |s| ==> s[i] < s[j]
  }

  /** Inserts into an ascending list after the smaller ids. */
  function InsertSorted(s: seq<nat>, x: nat): (r: seq<nat>)
    requires Ascending(s) && x !in s
    ensures Ascending(r) && (forall y :: y in r <==> y == x || y in s)
  {
    if s == [] then [x]
    else if s[0] < x then
      var rest := InsertSorted(s[1..], x);
      assert forall y :: y in s <==> y == s[0] || y in s[1..];
      assert forall k :: 0 <= k < |rest| ==> rest[k] in rest;
      [s[0]] + rest
    else [x] + s
  }

  /** Each in-degree counts the edges from nodes not yet emitted, plus the links in `left` from `id`. */
  ghost predicate Counts(p: Plan, indegree: map<nat, nat>, emitted: set<nat>, id: nat, left: seq<(nat, nat)>) {
    && indegree.Keys == Ids(p.nodes)
    && forall i :: i in indegree ==> indegree[i] == Waiting(p.deps, Ids(p.nodes), i, emitted) + Links(left, id, i)
  }

  /** The ready list is the ascending nodes not yet emitted whose in-degree is zero; emitted ones have zero too. */
  ghost predicate Lists(indegree: map<nat, nat>, ready: seq<nat>, emitted: set<nat>) {
    && emitted <= indegree.Keys
    && (forall y :: y in emitted ==> indegree[y] == 0)
    && Ascending(ready)
    && (forall y :: y in ready <==> y in indegree && y !in emitted && indegree[y] == 0)
  }

  ghost predicate Tracks(p: Plan, indegree: map<nat, nat>, ready: seq<nat>, emitted: set<nat>) {
    Counts(p, indegree, emitted, 0, []) && Lists(indegree, ready, emitted)
  }

  lemma ReadyListIsReady(p: Plan, indegree: map<nat, nat>, ready: seq<nat>, emitted: set<nat>)
    requires Tracks(p, indegree, ready, emitted)
    ensures forall y :: y in ready <==> ReadyAfter(p, emitted, y)
  {
    forall y | y in Ids(p.nodes)
      ensures indegree[y] == 0 <==> forall d :: d in p.deps && d.1 == y && d.0 in Ids(p.nodes) ==> d.0 in emitted
    {
      NothingWaits(p.deps, Ids(p.nodes), y, emitted);
    }
  }

  /** What the walk maintains: distinct emitted nodes, in an order Kahn's algorithm can take. */
  ghost predicate Walked(p: Plan, out: seq<nat>) {
    Respects(p, out) && SmallestFirst(p, out) && |Elements(out)| == |out| <= |p.nodes|
  }

  lemma TakeSmallest(p: Plan, indegree: map<nat, nat>, ready: seq<nat>, out: seq<nat>)
    requires Tracks(p, indegree, ready, Elements(out)) && Walked(p, out) && ready != []
    ensures Walked(p, out + [ready[0]])
    ensures Elements(out + [ready[0]]) == Elements(out) + {ready[0]}
  {
    var next := ready[0];
    ReadyListIsReady(p, indegree, ready, Elements(out));
    assert next in ready && forall y :: y in ready ==> next <= y;
    OneMoreStep(p, out, next);
    ElementsOfAppend(out, next);
    Subset(Elements(out) + {next}, Ids(p.nodes));
  }

  /** Kahn's algorithm taking the smallest ready id: a topological order, or none exists. */
  method TopoOrder(p: Plan) returns (order: Option<seq<nat>>)
    ensures order.Some? ==> Topological(p, order.value) && SmallestFirst(p, order.value)
    ensures order.None? ==> forall other :: !Topological(p, other)
  {
    var indegree, ready := Start(p);
    var out: seq<nat> := [];
    while ready != []
      invariant Tracks(p, indegree, ready, Elements(out))
      invariant Walked(p, out)
      decreases |p.nodes| - |out|
    {
      TakeSmallest(p, indegree, ready, out);
      var next := ready[0];
      indegree, ready := Release(p, next, indegree, ready, Elements(out));
      out := out + [next];
    }
    if |out| == |p.nodes| {
      return Some(out);
    }
    ReadyListIsReady(p, indegree, ready, Elements(out));
    forall other
      ensures !Topological(p, other)
    {
      StuckMeansNoOrder(p, Elements(out), other);
    }
    return None;
  }

  lemma Subset(a: set<nat>, b: set<nat>)
    requires a <= b
    ensures |a| <= |b|
  {
    assert b == a + (b - a);
  }

  /** If nothing is ready while fewer nodes are done than the plan has, no topological order exists. */
  lemma StuckMeansNoOrder(p: Plan, done: set<nat>, order: seq<nat>)
    requires |done| < |p.nodes| && forall id :: !ReadyAfter(p, done, id)
    ensures !Topological(p, order)
  {
    if Respects(p, order) {
      OrderStaysDone(p, done, order, |order|);
      Subset(Elements(order[..|order|]), done);
    }
  }

  lemma {:induction false} OrderStaysDone(p: Plan, done: set<nat>, order: seq<nat>, k: nat)
    requires Respects(p, order) && k <= |order|
    requires forall id :: !ReadyAfter(p, done, id)
    ensures Elements(order[..k]) <= done && |Elements(order[..k])| == k
  {
    if k == 0 {
      assert Elements(order[..0]) == {};
    } else {
      OrderStaysDone(p, done, order, k - 1);
      ElementsOfPrefix(order, k - 1);
      assert StepReady(p, order, k - 1);
      assert !ReadyAfter(p, done, order[k - 1]);
    }
  }

  method Start(p: Plan) returns (indegree: map<nat, nat>, ready: seq<nat>)
    ensures Tracks(p, indegree, ready, {})
  {
    indegree := CountParents(p);
    ready := CollectReady(indegree);
  }

  /** The in-degree of every node, counting every edge between known nodes. */
  method CountParents(p: Plan) returns (indegree: map<nat, nat>)
    ensures Counts(p, indegree, {}, 0, [])
  {
    var known := Ids(p.nodes);
    indegree := map i | i in known :: 0;
    for k := 0 to |p.deps|
      invariant indegree.Keys == known
      invariant forall i :: i in indegree ==> indegree[i] + Waiting(p.deps[k..], known, i, {}) == Waiting(p.deps, known, i, {})
    {
      assert p.deps[k..][1..] == p.deps[k + 1..];
      var (parent, child) := p.deps[k];
      if parent in known && child in known {
        indegree := indegree[child := indegree[child] + 1];
      }
    }
  }

  method CollectReady(indegree: map<nat, nat>) returns (ready: seq<nat>)
    ensures Lists(indegree, ready, {})
  {
    ready := [];
    var rest := indegree.Keys;
    while rest != {}
      invariant rest <= indegree.Keys
      invariant Ascending(ready)
      invariant forall y :: y in ready <==> y in indegree.Keys - rest && indegree[y] == 0
    {
      var id :| id in rest;
      rest := rest - {id};
      if indegree[id] == 0 {
        ready := InsertSorted(ready, id);
      }
    }
  }

  lemma ReleaseBegins(p: Plan, indegree: map<nat, nat>, ready: seq<nat>, emitted: set<nat>)
    requires Tracks(p, indegree, ready, emitted) && ready != []
    ensures Counts(p, indegree, emitted + {ready[0]}, ready[0], p.deps)
    ensures Lists(indegree, ready[1..], emitted + {ready[0]})
  {
    var id := ready[0];
    assert id in ready && forall y :: y in ready <==> y == ready[0] || y in ready[1..];
    forall i | i in indegree
      ensures indegree[i] == Waiting(p.deps, Ids(p.nodes), i, emitted + {id}) + Links(p.deps, id, i)
    {
      EmittingReleases(p.deps, Ids(p.nodes), i, emitted, id);
    }
  }

  lemma EdgeSubtracted(p: Plan, indegree: map<nat, nat>, emitted: set<nat>, id: nat, left: seq<(nat, nat)>)
    requires Counts(p, indegree, emitted, id, left) && left != [] && left[0].0 == id && left[0].1 in indegree
    ensures indegree[left[0].1] > 0
    ensures Counts(p, indegree[left[0].1 := indegree[left[0].1] - 1], emitted, id, left[1..])
  {
    var child := left[0].1;
    assert Links(left, id, child) == Links(left[1..], id, child) + 1;
    forall i | i in indegree && i != child
      ensures indegree[i] == Waiting(p.deps, Ids(p.nodes), i, emitted) + Links(left[1..], id, i)
    {
      assert Links(left, id, i) == Links(left[1..], id, i);
    }
  }

  lemma EdgeSkipped(p: Plan, indegree: map<nat, nat>, emitted: set<nat>, id: nat, left: seq<(nat, nat)>)
    requires Counts(p, indegree, emitted, id, left) && left != [] && !(left[0].0 == id && left[0].1 in indegree)
    ensures Counts(p, indegree, emitted, id, left[1..])
  {
    forall i | i in indegree
      ensures indegree[i] == Waiting(p.deps, Ids(p.nodes), i, emitted) + Links(left[1..], id, i)
    {
      assert Links(left, id, i) == Links(left[1..], id, i);
    }
  }

  /** Emitting the first ready node lowers each child once per edge; a child reaching zero becomes ready. */
  method Release(p: Plan, id: nat, indegree: map<nat, nat>, ready: seq<nat>, ghost emitted: set<nat>)
      returns (lowered: map<nat, nat>, nowReady: seq<nat>)
    requires Tracks(p, indegree, ready, emitted) && ready != [] && id == ready[0]
    ensures Tracks(p, lowered, nowReady, emitted + {id})
  {
    lowered, nowReady := indegree, ready[1..];
    ReleaseBegins(p, indegree, ready, emitted);
    for k := 0 to |p.deps|
      invariant Counts(p, lowered, emitted + {id}, id, p.deps[k..])
      invariant Lists(lowered, nowReady, emitted + {id})
    {
      assert p.deps[k..][0] == p.deps[k] && p.deps[k..][1..] == p.deps[k + 1..];
      var (parent, child) := p.deps[k];
      if parent == id && child in lowered {
        EdgeSubtracted(p, lowered, emitted + {id}, id, p.deps[k..]);
        lowered, nowReady := LowerChild(lowered, nowReady, child, emitted + {id});
      } else {
        EdgeSkipped(p, lowered, emitted + {id}, id, p.deps[k..]);
      }
    }
    assert p.deps[|p.deps|..] == [];
  }

  method LowerChild(indegree: map<nat, nat>, ready: seq<nat>, child: nat, ghost emitted: set<nat>)
      returns (lowered: map<nat, nat>, nowReady: seq<nat>)
    requires child in indegree && indegree[child] > 0 && Lists(indegree, ready, emitted)
    ensures lowered == indegree[child := indegree[child] - 1]
    ensures Lists(lowered, nowReady, emitted)
  {
    lowered, nowReady := indegree[child := indegree[child] - 1], ready;
    if lowered[child] == 0 {
      nowReady := InsertSorted(nowReady, child);
    }
  }

  // ---- Well-formed plans are committed in id order ----

  /** The walk of a well-formed plan is its ids in ascending order: the order the nodes were planned in. */
  lemma WellFormedWalksInOrder(p: Plan, order: seq<nat>)
    requires WellFormed(p) && Topological(p, order) && SmallestFirst(p, order)
    ensures forall k :: 0 <= k < |order| ==> order[k] == k
  {
    WalkPrefix(p, order, |order|);
  }

  lemma {:induction false} WalkPrefix(p: Plan, order: seq<nat>, k: nat)
    requires WellFormed(p) && Topological(p, order) && SmallestFirst(p, order) && k <= |order|
    ensures forall j :: 0 <= j < k ==> order[j] == j
  {
    if k > 0 {
      WalkPrefix(p, order, k - 1);
      PrefixIsReady(p, order, k - 1);
      assert StepReady(p, order, k - 1) && StepSmallest(p, order, k - 1);
    }
  }

  lemma PrefixIsReady(p: Plan, order: seq<nat>, k: nat)
    requires WellFormed(p) && k < |order| && k < |p.nodes|
    requires forall j :: 0 <= j < k ==> order[j] == j
    ensures forall x :: x in Elements(order[..k]) <==> 0 <= x < k
    ensures ReadyAfter(p, Elements(order[..k]), k)
    ensures forall x: nat :: ReadyAfter(p, Elements(order[..k]), x) ==> x >= k
  {
    assert p.nodes[k].id == k;
    forall x | 0 <= x < k
      ensures x in order[..k]
    {
      assert order[..k][x] == x;
    }
  }

  /** A well-formed plan has a topological order, so it validates. */
  lemma WellFormedHasOrder(p: Plan)
    requires WellFormed(p)
    ensures Topological(p, seq(|p.nodes|, i => i))
  {
    var order: seq<nat> := seq(|p.nodes|, i => i);
    forall k | 0 <= k < |order|
      ensures StepReady(p, order, k)
    {
      PrefixIsReady(p, order, k);
    }
  }
}
