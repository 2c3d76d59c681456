/** Kahn layering of a plan (WorkflowPlan.get_execution_order) and what its layers mean. */
module ExecutionOrder {
  import opened Common
  import opened WorkflowPlans

  function Flatten(layers: seq<seq<string>>): seq<string> {
    if layers == [] then [] else Flatten(layers[..|layers| - 1]) + layers[|layers| - 1]
  }

  /** The dependency list recorded for an id; an unknown id has none. */
  function Deps(plan: Plan, id: string): seq<string> {
    var g := Adjacency(plan.steps);
    if id in g then g[id] else []
  }

  /** What makes a list of layers the layering of a plan. */
  ghost predicate Layering(plan: Plan, layers: seq<seq<string>>) {
    && NoDuplicates(Flatten(layers))
    && (forall x :: x in Flatten(layers) ==> x in StepIds(plan))
    && LayersDescend(plan, layers)
    && (forall x :: x in StepIds(plan) && x !in Flatten(layers) ==>
      exists d :: d in Deps(plan, x) && d !in Flatten(layers))
    && (forall k :: 0 <= k < |layers| ==> layers[k] != [])
  }

  /** The dependencies of a step lie in earlier layers, one of them in the layer just before. */
  ghost predicate LayersDescend(plan: Plan, layers: seq<seq<string>>) {
    forall k, x :: 0 <= k < |layers| && x in layers[k] ==> Follows(plan, layers[..k], x)
  }

  ghost predicate Follows(plan: Plan, earlier: seq<seq<string>>, x: string) {
    && (forall d :: d in Deps(plan, x) ==> d in Flatten(earlier))
    && (earlier != [] ==> exists d :: d in Deps(plan, x) && d in earlier[|earlier| - 1])
  }

  // ---- Meaning of the layers ----

  lemma {:induction false} FlattenMember(layers: seq<seq<string>>, x: string)
    ensures x in Flatten(layers) <==> exists k :: 0 <= k < |layers| && x in layers[k]
  {
    if layers != [] {
      var init := layers[..|layers| - 1];
      FlattenMember(init, x);
      assert forall k :: 0 <= k < |init| ==> init[k] == layers[k];
    }
  }

  /** Each step is laid out at most once, so it has one layer index. */
  lemma {:induction false} LayerUnique(layers: seq<seq<string>>, x: string, i: nat, j: nat)
    requires NoDuplicates(Flatten(layers)) && i <= j < |layers|
    requires x in layers[i] && x in layers[j]
    ensures i == j
  {
    var init, last := layers[..|layers| - 1], layers[|layers| - 1];
    NoDuplicatesSplit(Flatten(init), last);
    if j < |layers| - 1 {
      LayerUnique(init, x, i, j);
    } else if i < j {
      assert x in init[i];
      FlattenMember(init, x);
    }
  }

  lemma {:induction false} LayerDistinct(layers: seq<seq<string>>, k: nat)
    requires NoDuplicates(Flatten(layers)) && k < |layers|
    ensures NoDuplicates(layers[k]) && forall x :: x in layers[k] ==> x !in Flatten(layers[..k])
  {
    var init, last := layers[..|layers| - 1], layers[|layers| - 1];
    NoDuplicatesSplit(Flatten(init), last);
    if k < |layers| - 1 {
      LayerDistinct(init, k);
      assert init[..k] == layers[..k];
    }
  }

  lemma EdgeIsDependency(plan: Plan, u: string, v: string)
    ensures Edge(Adjacency(plan.steps), u, v) <==> v in Deps(plan, u)
  {
  }

  /** A dependency of a step in layer k sits in some earlier layer. */
  lemma DependencyLayer(plan: Plan, layers: seq<seq<string>>, k: nat, x: string, d: string) returns (j: nat)
    requires LayersDescend(plan, layers) && k < |layers| && x in layers[k] && d in Deps(plan, x)
    ensures j < k && d in layers[j]
  {
    assert Follows(plan, layers[..k], x);
    FlattenMember(layers[..k], d);
    j :| 0 <= j < k && d in layers[..k][j];
  }

  /** No dependency chain that starts in layer k is longer than k. */
  lemma {:induction false} ChainBounded(plan: Plan, layers: seq<seq<string>>, k: nat, w: seq<string>)
    requires LayersDescend(plan, layers) && k < |layers|
    requires w != [] && Walk(Adjacency(plan.steps), w) && w[0] in layers[k]
    ensures |w| <= k + 1
  {
    if |w| > 1 {
      assert Edge(Adjacency(plan.steps), w[0], w[1]);
      var j := DependencyLayer(plan, layers, k, w[0], w[1]);
      WalkTail(Adjacency(plan.steps), w, 1);
      ChainBounded(plan, layers, j, w[1..]);
    }
  }

  /** Some dependency chain of length exactly k starts at every step of layer k. */
  lemma {:induction false} ChainExists(plan: Plan, layers: seq<seq<string>>, k: nat, x: string) returns (w: seq<string>)
    requires LayersDescend(plan, layers) && k < |layers| && x in layers[k]
    ensures |w| == k + 1 && w[0] == x && Walk(Adjacency(plan.steps), w)
  {
    w := [x];
    if k > 0 {
      assert Follows(plan, layers[..k], x);
      var d :| d in Deps(plan, x) && d in layers[..k][k - 1];
      var rest := ChainExists(plan, layers, k - 1, d);
      w := [x] + rest;
      forall i | 0 <= i < |w| - 1 ensures Edge(Adjacency(plan.steps), w[i], w[i + 1]) {
        if i > 0 { assert w[i] == rest[i - 1] && w[i + 1] == rest[i]; }
      }
    }
  }

  /** k is the length of the longest dependency chain that starts at x. */
  ghost predicate LongestChain(g: Graph, x: string, k: nat) {
    && (exists w :: |w| == k + 1 && w[0] == x && Walk(g, w))
    && (forall w :: w != [] && w[0] == x && Walk(g, w) ==> |w| <= k + 1)
  }

  /** A laid-out step is in layer k exactly when its longest dependency chain has length k. */
  lemma LayerIsLongestChain(plan: Plan, layers: seq<seq<string>>, k: nat, x: string)
    requires Layering(plan, layers) && x in Flatten(layers)
    ensures (k < |layers| && x in layers[k]) <==> LongestChain(Adjacency(plan.steps), x, k)
  {
    FlattenMember(layers, x);
    var j :| 0 <= j < |layers| && x in layers[j];
    var g := Adjacency(plan.steps);
    var w := ChainExists(plan, layers, j, x);
    forall v | v != [] && v[0] == x && Walk(g, v) ensures |v| <= j + 1 {
      ChainBounded(plan, layers, j, v);
    }
    assert LongestChain(g, x, j);
    if k < |layers| && x in layers[k] {
      LayerUnique(layers, x, if j <= k then j else k, if j <= k then k else j);
    }
    if LongestChain(g, x, k) {
      var v :| |v| == k + 1 && v[0] == x && Walk(g, v);
      assert |v| <= j + 1 && |w| <= k + 1;
    }
  }

  /** From x the dependencies lead out of the plan or back to a vertex already on the walk. */
  ghost predicate Blocked(plan: Plan, x: string) {
    exists w :: BlockingWalk(plan, x, w)
  }

  ghost predicate BlockingWalk(plan: Plan, x: string, w: seq<string>) {
    && w != [] && w[0] == x && Walk(Adjacency(plan.steps), w)
    && (w[|w| - 1] !in StepIds(plan) || exists i :: 0 <= i < |w| - 1 && w[i] == w[|w| - 1])
  }

  function LayerOf(layers: seq<seq<string>>, x: string): (k: nat)
    requires x in Flatten(layers)
    ensures k < |layers| && x in layers[k]
  {
    var last := |layers| - 1;
    if x in layers[last] then last else LayerOf(layers[..last], x)
  }

  /** Layer indices strictly decrease along a walk from a laid-out step. */
  lemma {:induction false} WalkDescendsLayers(plan: Plan, layers: seq<seq<string>>, w: seq<string>, a: nat, b: nat)
    requires Layering(plan, layers) && Walk(Adjacency(plan.steps), w)
    requires a <= b < |w| && w[a] in Flatten(layers)
    ensures w[b] in Flatten(layers)
    ensures a == b ==> LayerOf(layers, w[b]) == LayerOf(layers, w[a])
    ensures a < b ==> LayerOf(layers, w[b]) < LayerOf(layers, w[a])
  {
    if a < b {
      var before := b - 1;
      WalkDescendsLayers(plan, layers, w, a, before);
      WalkEdge(Adjacency(plan.steps), w, before, b);
      LayerDescends(plan, layers, w[before], w[b]);
    }
  }

  lemma WalkEdge(g: Graph, w: seq<string>, i: nat, next: nat)
    requires Walk(g, w) && next == i + 1 < |w|
    ensures Edge(g, w[i], w[next])
  {
    assert w[next] == w[i + 1];
  }

  lemma LayerDescends(plan: Plan, layers: seq<seq<string>>, u: string, v: string)
    requires Layering(plan, layers) && Edge(Adjacency(plan.steps), u, v) && u in Flatten(layers)
    ensures v in Flatten(layers) && LayerOf(layers, v) < LayerOf(layers, u)
  {
    var j := DependencyLayer(plan, layers, LayerOf(layers, u), u, v);
    FlattenMember(layers, v);
    LayerOfUnique(layers, v, j);
  }

  lemma LayerOfUnique(layers: seq<seq<string>>, x: string, j: nat)
    requires NoDuplicates(Flatten(layers)) && x in Flatten(layers) && j < |layers| && x in layers[j]
    ensures LayerOf(layers, x) == j
  {
    var k := LayerOf(layers, x);
    if j <= k { LayerUnique(layers, x, j, k); } else { LayerUnique(layers, x, k, j); }
  }

  /** A walk over steps that were never laid out can be prolonged until it blocks. */
  lemma {:induction false} StuckWalk(plan: Plan, layers: seq<seq<string>>, p: seq<string>) returns (w: seq<string>)
    requires Layering(plan, layers) && p != [] && NoDuplicates(p) && Walk(Adjacency(plan.steps), p)
    requires forall x :: x in p ==> x in StepIds(plan)
    requires p[|p| - 1] !in Flatten(layers)
    ensures BlockingWalk(plan, p[0], w)
    decreases StepIds(plan) - Elements(p)
  {
    var last := p[|p| - 1];
    var d :| d in Deps(plan, last) && d !in Flatten(layers);
    WalkExtend(Adjacency(plan.steps), p, d);
    w := p + [d];
    if d in p {
      var i :| 0 <= i < |p| && p[i] == d;
      assert w[i] == w[|w| - 1];
    } else if d in StepIds(plan) {
      NoDuplicatesAppend(p, d);
      assert d in StepIds(plan) - Elements(p);
      w := StuckWalk(plan, layers, w);
    }
  }

  lemma NoReturn(plan: Plan, layers: seq<seq<string>>, w: seq<string>, a: nat, b: nat)
    requires Layering(plan, layers) && Walk(Adjacency(plan.steps), w) && w != [] && w[0] in Flatten(layers)
    requires a < b < |w|
    ensures w[a] != w[b]
  {
    WalkDescendsLayers(plan, layers, w, 0, a);
    WalkDescendsLayers(plan, layers, w, a, b);
  }

  /** Exactly the steps that cannot reach a cycle (or leave the plan) are laid out. */
  lemma LaidOutIffNotBlocked(plan: Plan, layers: seq<seq<string>>, x: string)
    requires Layering(plan, layers) && x in StepIds(plan)
    ensures x in Flatten(layers) <==> !Blocked(plan, x)
  {
    if x in Flatten(layers) {
      forall w ensures !BlockingWalk(plan, x, w) {
        if BlockingWalk(plan, x, w) {
          var last := |w| - 1;
          WalkDescendsLayers(plan, layers, w, 0, last);
          var a :| 0 <= a < last && w[a] == w[last];
          NoReturn(plan, layers, w, a, last);
        }
      }
    } else {
      var w := StuckWalk(plan, layers, [x]);
    }
  }

  /** In a resolved plan a step is blocked exactly when its dependencies lead to a cycle. */
  lemma BlockedMeansCycle(plan: Plan, x: string)
    requires DependenciesResolved(plan) && x in StepIds(plan)
    ensures Blocked(plan, x) ==> exists w, i :: ReachesCycle(Adjacency(plan.steps), x, w, i)
    ensures (exists w, i :: ReachesCycle(Adjacency(plan.steps), x, w, i)) ==> Blocked(plan, x)
  {
    var g := Adjacency(plan.steps);
    forall w | BlockingWalk(plan, x, w) ensures exists v, i :: ReachesCycle(g, x, v, i) {
      WalkResolved(plan, w, |w| - 1);
      var i :| 0 <= i < |w| - 1 && w[i] == w[|w| - 1];
      WalkTail(g, w, i);
      assert ReachesCycle(g, x, w, i);
    }
    forall w, i | ReachesCycle(g, x, w, i) ensures BlockingWalk(plan, x, w) {
      assert w[i..][0] == w[i] && w[i..][|w[i..]| - 1] == w[|w| - 1];
      assert |w[i..]| >= 2;
    }
  }

  /** The walk w starts at x and its part from position i on is a cycle. */
  ghost predicate ReachesCycle(g: Graph, x: string, w: seq<string>, i: int) {
    0 <= i < |w| && w[0] == x && Walk(g, w) && ClosedWalk(g, w[i..])
  }

  /** All steps of a resolved plan are laid out exactly when its graph is acyclic. */
  lemma AllLaidOutIffAcyclic(plan: Plan, layers: seq<seq<string>>)
    requires DependenciesResolved(plan) && Layering(plan, layers)
    ensures (forall x :: x in StepIds(plan) ==> x in Flatten(layers)) <==> Acyclic(Adjacency(plan.steps))
  {
    var g := Adjacency(plan.steps);
    if Acyclic(g) {
      forall x | x in StepIds(plan) ensures x in Flatten(layers) {
        LaidOutIffNotBlocked(plan, layers, x);
        BlockedMeansCycle(plan, x);
      }
    } else {
      var w :| ClosedWalk(g, w);
      assert Edge(g, w[0], w[1]);
      assert w[0] in StepIds(plan);
      LaidOutIffNotBlocked(plan, layers, w[0]);
      assert BlockingWalk(plan, w[0], w);
    }
  }

  // ---- The algorithm ----

  /** The ids appended to adj[dep], one per occurrence of dep in a dependency list. */
  function ChildrenOf(id: string, deps: seq<string>, dep: string): seq<string> {
    if deps == [] then [] else ChildrenOf(id, deps[..|deps| - 1], dep) + if deps[|deps| - 1] == dep then [id] else []
  }

  function Children(steps: seq<Step>, dep: string): seq<string> {
    if steps == [] then []
    else
      var last := steps[|steps| - 1];
      Children(steps[..|steps| - 1], dep) + ChildrenOf(last.id, last.dependsOn, dep)
  }

  lemma {:induction false} ChildrenOfCount(id: string, deps: seq<string>, dep: string)
    ensures forall c :: multiset(ChildrenOf(id, deps, dep))[c] == if c == id then multiset(deps)[dep] else 0
  {
    if deps != [] {
      ChildrenOfCount(id, deps[..|deps| - 1], dep);
      assert deps == deps[..|deps| - 1] + [deps[|deps| - 1]];
    }
  }

  /** With unique ids c occurs among the children of dep as often as dep occurs in c's own list. */
  lemma {:induction false} ChildrenCount(plan: Plan, n: nat, dep: string, c: string)
    requires UniqueIds(plan) && n <= |plan.steps|
    ensures multiset(Children(plan.steps[..n], dep))[c] ==
      if c in Adjacency(plan.steps[..n]) then multiset(Adjacency(plan.steps[..n])[c])[dep] else 0
  {
    if n > 0 {
      var last := plan.steps[n - 1];
      ChildrenCount(plan, n - 1, dep, c);
      ChildrenOfCount(last.id, last.dependsOn, dep);
      assert plan.steps[..n][..n - 1] == plan.steps[..n - 1];
      if c == last.id {
        forall s | s in plan.steps[..n - 1] ensures s.id != c {
          var i :| 0 <= i < n - 1 && plan.steps[i] == s;
        }
      }
    }
  }

  lemma {:induction false} ChildrenAreSteps(steps: seq<Step>, dep: string)
    ensures forall c :: c in Children(steps, dep) ==> c in Adjacency(steps)
  {
    if steps != [] {
      var last := steps[|steps| - 1];
      ChildrenAreSteps(steps[..|steps| - 1], dep);
      ChildrenOfCount(last.id, last.dependsOn, dep);
      forall c | c in ChildrenOf(last.id, last.dependsOn, dep) ensures c == last.id {
        assert multiset(ChildrenOf(last.id, last.dependsOn, dep))[c] > 0;
      }
    }
  }

  /** How many entries of a dependency list are not yet done. */
  function Outstanding(deps: seq<string>, done: set<string>): nat {
    if deps == [] then 0
    else Outstanding(deps[..|deps| - 1], done) + if deps[|deps| - 1] in done then 0 else 1
  }

  lemma {:induction false} OutstandingStep(deps: seq<string>, done: set<string>, p: string)
    requires p !in done
    ensures Outstanding(deps, done + {p}) == Outstanding(deps, done) - multiset(deps)[p]
  {
    if deps != [] {
      OutstandingStep(deps[..|deps| - 1], done, p);
      assert deps == deps[..|deps| - 1] + [deps[|deps| - 1]];
    }
  }

  lemma {:induction false} OutstandingZero(deps: seq<string>, done: set<string>)
    ensures Outstanding(deps, done) == 0 <==> forall d :: d in deps ==> d in done
    ensures done == {} ==> Outstanding(deps, done) == |deps|
  {
    if deps != [] {
      var init, last := deps[..|deps| - 1], deps[|deps| - 1];
      OutstandingZero(init, done);
      assert forall d :: d in deps <==> d in init || d == last;
    }
  }

  /** How often c is decremented while a layer is processed. */
  function Released(steps: seq<Step>, layer: seq<string>, c: string): nat {
    if layer == [] then 0
    else Released(steps, layer[..|layer| - 1], c) + multiset(Children(steps, layer[|layer| - 1]))[c]
  }

  // ---- The exact order ----

  /** In-degrees and the queue being filled. */
  datatype Queue = Queue(degree: map<string, int>, next: seq<string>)

  function ReleaseOne(q: Queue, c: string): Queue {
    if c !in q.degree then q
    else Queue(q.degree[c := q.degree[c] - 1], if q.degree[c] - 1 == 0 then q.next + [c] else q.next)
  }

  function ReleaseAll(q: Queue, children: seq<string>): Queue {
    if children == [] then q else ReleaseOne(ReleaseAll(q, children[..|children| - 1]), children[|children| - 1])
  }

  function ReleaseSteps(steps: seq<Step>, layer: seq<string>, q: Queue): Queue {
    if layer == [] then q
    else ReleaseAll(ReleaseSteps(steps, layer[..|layer| - 1], q), Children(steps, layer[|layer| - 1]))
  }

  function Degrees(steps: seq<Step>): map<string, int> {
    var g := Adjacency(steps);
    map c | c in g :: |g[c]|
  }

  /** In dictionary order, that is by first occurrence, the ids of degree zero. */
  function FirstIds(steps: seq<Step>, degree: map<string, int>): seq<string> {
    if steps == [] then []
    else
      var before, id := FirstIds(steps[..|steps| - 1], degree), steps[|steps| - 1].id;
      before + (if id in degree && degree[id] == 0 && id !in before then [id] else [])
  }

  datatype Search = Search(layers: seq<seq<string>>, degree: map<string, int>, queue: seq<string>)

  function NextRound(steps: seq<Step>, s: Search): Search {
    if s.queue == [] then s
    else
      var q := ReleaseSteps(steps, s.queue, Queue(s.degree, []));
      Search(s.layers + [s.queue], q.degree, q.next)
  }

  function SearchAfter(steps: seq<Step>, rounds: nat): Search {
    if rounds == 0 then Search([], Degrees(steps), FirstIds(steps, Degrees(steps)))
    else NextRound(steps, SearchAfter(steps, rounds - 1))
  }

  /**
   * The list of layers, each in the order in which its steps were queued; as many rounds as there are steps suffice.
   */
  function OrderOf(steps: seq<Step>): seq<seq<string>> {
    SearchAfter(steps, |steps|).layers
  }

  lemma {:induction false} SearchStable(steps: seq<Step>, m: nat, n: nat)
    requires m <= n && SearchAfter(steps, m).queue == []
    ensures SearchAfter(steps, n) == SearchAfter(steps, m)
  {
    if m < n { SearchStable(steps, m, n - 1); }
  }

  lemma {:induction false} LayersFit(layers: seq<seq<string>>)
    requires forall k :: 0 <= k < |layers| ==> layers[k] != []
    ensures |layers| <= |Flatten(layers)|
  {
    if layers != [] { LayersFit(layers[..|layers| - 1]); }
  }

  lemma {:induction false} IdCount(steps: seq<Step>)
    ensures |Adjacency(steps).Keys| <= |steps|
  {
    if steps != [] {
      var init, last := steps[..|steps| - 1], steps[|steps| - 1];
      IdCount(init);
      assert Adjacency(steps).Keys == Adjacency(init).Keys + {last.id};
    }
  }

  lemma RoundsBounded(plan: Plan, layers: seq<seq<string>>)
    requires NoDuplicates(Flatten(layers)) && forall x :: x in Flatten(layers) ==> x in StepIds(plan)
    requires forall k :: 0 <= k < |layers| ==> layers[k] != []
    ensures |layers| <= |plan.steps|
  {
    LayersFit(layers);
    DistinctCount(Flatten(layers));
    SubsetCardinality(Elements(Flatten(layers)), StepIds(plan));
    IdCount(plan.steps);
    assert Adjacency(plan.steps).Keys == StepIds(plan);
  }

  // ---- The order depends on ids and dependency lists only ----

  ghost predicate SameShape(a: seq<Step>, b: seq<Step>) {
    |a| == |b| && forall i :: 0 <= i < |a| ==> a[i].id == b[i].id && a[i].dependsOn == b[i].dependsOn
  }

  lemma {:induction false} SameTables(a: seq<Step>, b: seq<Step>)
    requires SameShape(a, b)
    ensures Adjacency(a) == Adjacency(b)
    ensures forall p :: Children(a, p) == Children(b, p)
    ensures forall degree :: FirstIds(a, degree) == FirstIds(b, degree)
  {
    if a != [] { SameTables(a[..|a| - 1], b[..|b| - 1]); }
  }

  lemma {:induction false} SameRelease(a: seq<Step>, b: seq<Step>, layer: seq<string>, q: Queue)
    requires forall p :: Children(a, p) == Children(b, p)
    ensures ReleaseSteps(a, layer, q) == ReleaseSteps(b, layer, q)
  {
    if layer != [] { SameRelease(a, b, layer[..|layer| - 1], q); }
  }

  lemma SameStart(a: seq<Step>, b: seq<Step>)
    requires SameShape(a, b)
    ensures SearchAfter(a, 0) == SearchAfter(b, 0)
  {
    SameTables(a, b);
  }

  lemma SameRound(a: seq<Step>, b: seq<Step>, s: Search)
    requires SameShape(a, b)
    ensures NextRound(a, s) == NextRound(b, s)
  {
    SameTables(a, b);
    SameRelease(a, b, s.queue, Queue(s.degree, []));
  }

  lemma {:induction false} SameSearch(a: seq<Step>, b: seq<Step>, n: nat)
    requires SameShape(a, b)
    ensures SearchAfter(a, n) == SearchAfter(b, n)
  {
    if n == 0 {
      SameStart(a, b);
    } else {
      var before := n - 1;
      SameSearch(a, b, before);
      SameRound(a, b, SearchAfter(a, before));
      RoundStep(a, SearchAfter(a, before), before, n);
      RoundStep(b, SearchAfter(b, before), before, n);
    }
  }

  /**
   * Plans with the same ids and dependency lists, duplicate ids included, have the same execution order, list for list.
   */
  lemma SameOrder(a: seq<Step>, b: seq<Step>)
    requires SameShape(a, b)
    ensures OrderOf(a) == OrderOf(b)
  {
    SameSearch(a, b, |a|);
  }

  /** The inner loop: decrement every child, queue those whose degree reaches zero. */
  method ReleaseChildren(children: seq<string>, degree: map<string, int>, queue: seq<string>)
    returns (deg: map<string, int>, next: seq<string>)
    requires forall c :: c in children ==> c in degree
    requires NoDuplicates(queue) && forall c :: c in queue ==> c in degree && degree[c] <= 0
    ensures Queue(deg, next) == ReleaseAll(Queue(degree, queue), children)
    ensures deg.Keys == degree.Keys
    ensures forall c :: c in degree ==> deg[c] == degree[c] - multiset(children)[c]
    ensures NoDuplicates(next)
    ensures forall c :: c in next <==> c in queue || (c in degree && degree[c] > 0 && deg[c] <= 0)
  {
    deg, next := degree, queue;
    var j := 0;
    while j < |children|
      invariant j <= |children| && deg.Keys == degree.Keys
      invariant Queue(deg, next) == ReleaseAll(Queue(degree, queue), children[..j])
    {
      var child, k := children[j], j + 1;
      ReleaseStep(Queue(degree, queue), children, j, k);
      deg := deg[child := deg[child] - 1];
      if deg[child] == 0 {
        next := next + [child];
      }
      j := k;
    }
    assert children[..|children|] == children;
    ReleasedDegrees(Queue(degree, queue), children);
    ReleasedQueue(Queue(degree, queue), children);
  }

  lemma {:induction false} ReleasedDegrees(q: Queue, children: seq<string>)
    ensures ReleaseAll(q, children).degree.Keys == q.degree.Keys
    ensures forall c :: c in q.degree ==> ReleaseAll(q, children).degree[c] == q.degree[c] - multiset(children)[c]
  {
    if children != [] {
      var init, last := children[..|children| - 1], children[|children| - 1];
      ReleasedDegrees(q, init);
      forall c | c in q.degree ensures ReleaseAll(q, children).degree[c] == q.degree[c] - multiset(children)[c] {
        CountLast(children, init, last, c);
      }
    }
  }

  lemma CountLast(children: seq<string>, init: seq<string>, last: string, c: string)
    requires children != [] && init == children[..|children| - 1] && last == children[|children| - 1]
    ensures multiset(children)[c] == multiset(init)[c] + if last == c then 1 else 0
  {
    assert children == init + [last];
  }

  /** No id is queued twice: exactly those whose degree falls from above zero are queued. */
  lemma {:induction false} ReleasedQueue(q: Queue, children: seq<string>)
    requires forall c :: c in children ==> c in q.degree
    requires NoDuplicates(q.next) && forall c :: c in q.next ==> c in q.degree && q.degree[c] <= 0
    ensures NoDuplicates(ReleaseAll(q, children).next)
    ensures forall c :: c in ReleaseAll(q, children).next <==> QueuedBy(q, ReleaseAll(q, children).degree, c)
  {
    ReleasedDegrees(q, children);
    if children != [] {
      var init, last := children[..|children| - 1], children[|children| - 1];
      ReleasedDegrees(q, init);
      ReleasedQueue(q, init);
      var before := ReleaseAll(q, init);
      assert QueuedBy(q, before.degree, last) <==> last in before.next;
      QueueOne(q, before, last);
    }
  }

  ghost predicate QueuedBy(q: Queue, after: map<string, int>, c: string) {
    c in q.next || (c in q.degree && c in after && q.degree[c] > 0 && after[c] <= 0)
  }

  lemma QueueOne(q: Queue, before: Queue, last: string)
    requires last in before.degree && before.degree.Keys == q.degree.Keys && NoDuplicates(before.next)
    requires before.degree[last] <= q.degree[last]
    requires forall c :: c in q.next ==> c in q.degree && q.degree[c] <= 0
    requires forall c :: c in before.next <==> QueuedBy(q, before.degree, c)
    ensures NoDuplicates(ReleaseOne(before, last).next)
    ensures forall c :: c in ReleaseOne(before, last).next <==> QueuedBy(q, ReleaseOne(before, last).degree, c)
  {
    if before.degree[last] == 1 { NoDuplicatesAppend(before.next, last); }
  }

  lemma ReleaseStep(q: Queue, children: seq<string>, j: nat, next: nat)
    requires next == j + 1 <= |children|
    ensures ReleaseAll(q, children[..next]) == ReleaseOne(ReleaseAll(q, children[..j]), children[j])
  {
    assert children[..next][..j] == children[..j];
  }

  /** One round of the outer loop: process a whole layer. */
  method ReleaseLayer(steps: seq<Step>, adj: map<string, seq<string>>, layer: seq<string>, degree: map<string, int>)
    returns (deg: map<string, int>, next: seq<string>)
    requires degree.Keys == Adjacency(steps).Keys
    requires forall p :: Children(steps, p) == Lookup(adj, p)
    ensures Queue(deg, next) == ReleaseSteps(steps, layer, Queue(degree, []))
    ensures deg.Keys == degree.Keys
    ensures forall c :: c in degree ==> deg[c] == degree[c] - Released(steps, layer, c)
    ensures NoDuplicates(next)
    ensures forall c :: c in next <==> c in degree && degree[c] > 0 && deg[c] <= 0
  {
    deg, next := degree, [];
    var i := 0;
    while i < |layer|
      invariant i <= |layer|
      invariant Queue(deg, next) == ReleaseSteps(steps, layer[..i], Queue(degree, []))
    {
      var id, j := layer[i], i + 1;
      ChildrenAreSteps(steps, id);
      StepsRelease(steps, layer[..i], Queue(degree, []));
      LayerStep(steps, layer, i, j, Queue(degree, []));
      deg, next := ReleaseChildren(Lookup(adj, id), deg, next);
      i := j;
    }
    assert layer[..|layer|] == layer;
    StepsRelease(steps, layer, Queue(degree, []));
  }

  lemma LayerStep(steps: seq<Step>, layer: seq<string>, i: nat, next: nat, q: Queue)
    requires next == i + 1 <= |layer|
    ensures ReleaseSteps(steps, layer[..next], q) ==
      ReleaseAll(ReleaseSteps(steps, layer[..i], q), Children(steps, layer[i]))
  {
    assert layer[..next][..i] == layer[..i];
  }

  /** The two dictionaries built before the search: in-degrees and reverse adjacency. */
  method BuildTables(plan: Plan) returns (degree: map<string, int>, adj: map<string, seq<string>>)
    ensures degree == Degrees(plan.steps) && degree.Keys == StepIds(plan)
    ensures forall c :: c in degree ==> degree[c] == |Deps(plan, c)|
    ensures forall p :: Children(plan.steps, p) == Lookup(adj, p)
  {
    var g := Adjacency(plan.steps);
    degree := map c | c in g :: |g[c]|;
    adj := map[];
    var k := 0;
    while k < |plan.steps|
      invariant k <= |plan.steps|
      invariant forall p :: Children(plan.steps[..k], p) == Lookup(adj, p)
    {
      var s, next := plan.steps[k], k + 1;
      ghost var before := adj;
      adj := AddChild(adj, s);
      forall p ensures Children(plan.steps[..next], p) == Lookup(adj, p) {
        ChildrenStep(plan.steps, k, next, p);
        assert Lookup(before, p) == Children(plan.steps[..k], p);
      }
      k := next;
    }
    assert plan.steps[..|plan.steps|] == plan.steps;
  }

  lemma ChildrenStep(steps: seq<Step>, k: nat, next: nat, p: string)
    requires next == k + 1 <= |steps|
    ensures Children(steps[..next], p) == Children(steps[..k], p) + ChildrenOf(steps[k].id, steps[k].dependsOn, p)
  {
    assert steps[..next][..k] == steps[..k];
  }

  function Lookup(adj: map<string, seq<string>>, p: string): seq<string> {
    if p in adj then adj[p] else []
  }

  method AddChild(before: map<string, seq<string>>, s: Step) returns (adj: map<string, seq<string>>)
    ensures forall p :: Lookup(adj, p) == Lookup(before, p) + ChildrenOf(s.id, s.dependsOn, p)
  {
    adj := before;
    var j := 0;
    while j < |s.dependsOn|
      invariant j <= |s.dependsOn|
      invariant forall p :: Lookup(adj, p) == Lookup(before, p) + ChildrenOf(s.id, s.dependsOn[..j], p)
    {
      var dep, next := s.dependsOn[j], j + 1;
      ghost var had := adj;
      adj := adj[dep := Lookup(adj, dep) + [s.id]];
      forall p ensures Lookup(adj, p) == Lookup(before, p) + ChildrenOf(s.id, s.dependsOn[..next], p) {
        ChildrenOfStep(s.id, s.dependsOn, j, next, p);
        assert Lookup(had, p) == Lookup(before, p) + ChildrenOf(s.id, s.dependsOn[..j], p);
        Associative(Lookup(before, p), ChildrenOf(s.id, s.dependsOn[..j], p), if dep == p then [s.id] else []);
      }
      j := next;
    }
    assert s.dependsOn[..|s.dependsOn|] == s.dependsOn;
  }

  lemma ChildrenOfStep(id: string, deps: seq<string>, j: nat, next: nat, p: string)
    requires next == j + 1 <= |deps|
    ensures ChildrenOf(id, deps[..next], p) == ChildrenOf(id, deps[..j], p) + if deps[j] == p then [id] else []
  {
    assert deps[..next][..j] == deps[..j];
  }

  lemma ChildOccurrences(plan: Plan, dep: string, c: string)
    requires UniqueIds(plan) && c in StepIds(plan)
    ensures multiset(Children(plan.steps, dep))[c] == multiset(Deps(plan, c))[dep]
    ensures multiset(Deps(plan, c))[dep] > 0 ==> dep in Deps(plan, c)
  {
    assert plan.steps[..|plan.steps|] == plan.steps;
    ChildrenCount(plan, |plan.steps|, dep, c);
  }

  /** While a layer is processed every degree falls by the occurrences of the layer's steps in the list. */
  lemma {:induction false} ReleasedIsOutstanding(plan: Plan, layer: seq<string>, done: set<string>, c: string)
    requires UniqueIds(plan) && NoDuplicates(layer) && (forall p :: p in layer ==> p !in done)
    requires c in StepIds(plan)
    ensures Outstanding(Deps(plan, c), done + Elements(layer)) ==
      Outstanding(Deps(plan, c), done) - Released(plan.steps, layer, c)
    ensures Released(plan.steps, layer, c) > 0 ==> exists p :: p in layer && p in Deps(plan, c)
  {
    if layer == [] {
      assert done + Elements(layer) == done;
    } else {
      var init, last := layer[..|layer| - 1], layer[|layer| - 1];
      assert layer == init + [last];
      NoDuplicatesSplit(init, [last]);
      ReleasedIsOutstanding(plan, init, done, c);
      var before := done + Elements(init);
      assert done + Elements(layer) == before + {last};
      OutstandingStep(Deps(plan, c), before, last);
      ChildOccurrences(plan, last, c);
      ReleasedLast(plan.steps, layer, init, last, c);
    }
  }

  lemma ReleasedLast(steps: seq<Step>, layer: seq<string>, init: seq<string>, last: string, c: string)
    requires layer == init + [last]
    ensures Released(steps, layer, c) == Released(steps, init, c) + multiset(Children(steps, last))[c]
  {
    assert layer[..|layer| - 1] == init;
  }

  // ---- The order inside a layer ----

  /** Where the step stands in the plan. */
  function Place(steps: seq<Step>, id: string): nat {
    if steps == [] then 0 else if steps[|steps| - 1].id == id then |steps| - 1 else Place(steps[..|steps| - 1], id)
  }

  /** The last position in the layer of a dependency of x; -1 if there is none. */
  function LastDependency(plan: Plan, layer: seq<string>, x: string): (k: int)
    ensures -1 <= k < |layer|
  {
    if layer == [] then -1
    else if layer[|layer| - 1] in Deps(plan, x) then |layer| - 1
    else LastDependency(plan, layer[..|layer| - 1], x)
  }

  /** x is served before y: its last dependency in the previous layer comes first, or it is the same one. */
  ghost predicate StandsBefore(plan: Plan, previous: seq<string>, x: string, y: string) {
    var a, b := LastDependency(plan, previous, x), LastDependency(plan, previous, y);
    a < b || (a == b && Place(plan.steps, x) < Place(plan.steps, y))
  }

  ghost predicate Arranged(plan: Plan, previous: seq<string>, layer: seq<string>) {
    forall i, j :: 0 <= i < j < |layer| ==> StandsBefore(plan, previous, layer[i], layer[j])
  }

  /** The first layer stands in plan order, every other one in the order in which its last dependencies stand. */
  ghost predicate InOrder(plan: Plan, layers: seq<seq<string>>) {
    forall k :: 0 <= k < |layers| ==> Arranged(plan, Previous(layers, k), layers[k])
  }

  function Previous(layers: seq<seq<string>>, k: nat): seq<string>
    requires k <= |layers|
  {
    if k == 0 then [] else layers[k - 1]
  }

  lemma {:induction false} PlaceOfStep(plan: Plan, n: nat, i: nat)
    requires UniqueIds(plan) && i < n <= |plan.steps|
    ensures Place(plan.steps[..n], plan.steps[i].id) == i
  {
    if i < n - 1 {
      assert plan.steps[..n][..n - 1] == plan.steps[..n - 1];
      PlaceOfStep(plan, n - 1, i);
    }
  }

  lemma PlaceInPlan(plan: Plan, i: nat)
    requires UniqueIds(plan) && i < |plan.steps|
    ensures Place(plan.steps, plan.steps[i].id) == i
  {
    assert plan.steps[..|plan.steps|] == plan.steps;
    PlaceOfStep(plan, |plan.steps|, i);
  }

  lemma PlaceInjective(plan: Plan, x: string, y: string)
    requires UniqueIds(plan) && x in StepIds(plan) && y in StepIds(plan) && Place(plan.steps, x) == Place(plan.steps, y)
    ensures x == y
  {
    var i :| 0 <= i < |plan.steps| && plan.steps[i].id == x;
    var j :| 0 <= j < |plan.steps| && plan.steps[j].id == y;
    PlaceInPlan(plan, i);
    PlaceInPlan(plan, j);
  }

  /** The ids stand in plan order, repetitions next to each other. */
  ghost predicate PlanSorted(steps: seq<Step>, ids: seq<string>) {
    forall i, j :: 0 <= i < j < |ids| ==> Place(steps, ids[i]) <= Place(steps, ids[j])
  }

  lemma ChildrenOfSame(id: string, deps: seq<string>, dep: string)
    ensures forall c :: c in ChildrenOf(id, deps, dep) ==> c == id && dep in deps
  {
    ChildrenOfCount(id, deps, dep);
    forall c | c in ChildrenOf(id, deps, dep) ensures c == id && dep in deps {
      assert multiset(ChildrenOf(id, deps, dep))[c] > 0;
    }
  }

  lemma {:induction false} ChildrenSorted(plan: Plan, n: nat, dep: string)
    requires UniqueIds(plan) && n <= |plan.steps|
    ensures PlanSorted(plan.steps, Children(plan.steps[..n], dep))
    ensures forall c :: c in Children(plan.steps[..n], dep) ==> Place(plan.steps, c) < n
  {
    if n > 0 {
      var m := n - 1;
      ChildrenSorted(plan, m, dep);
      ChildrenStep(plan.steps, m, n, dep);
      ChildrenOfSame(plan.steps[m].id, plan.steps[m].dependsOn, dep);
      PlaceInPlan(plan, m);
      AppendSorted(plan.steps, Children(plan.steps[..m], dep),
                   ChildrenOf(plan.steps[m].id, plan.steps[m].dependsOn, dep), m);
    }
  }

  lemma AppendSorted(steps: seq<Step>, a: seq<string>, b: seq<string>, m: nat)
    requires PlanSorted(steps, a) && (forall c :: c in a ==> Place(steps, c) < m)
    requires forall c :: c in b ==> Place(steps, c) == m
    ensures PlanSorted(steps, a + b) && forall c :: c in a + b ==> Place(steps, c) <= m
  {
    var ids := a + b;
    forall i, j | 0 <= i < j < |ids| ensures Place(steps, ids[i]) <= Place(steps, ids[j]) {
      assert ids[i] in a || ids[i] in b;
      assert i < |a| ==> ids[i] == a[i];
      assert j < |a| ==> ids[j] == a[j];
      assert j >= |a| ==> ids[j] == b[j - |a|] && ids[j] in b;
    }
  }

  /** What one processed element adds to the queue. */
  function Added(q: Queue, children: seq<string>): seq<string> {
    if children == [] then []
    else
      var before, last := ReleaseAll(q, children[..|children| - 1]), children[|children| - 1];
      Added(q, children[..|children| - 1]) + if last in before.degree && before.degree[last] == 1 then [last] else []
  }

  lemma {:induction false} QueueGrows(q: Queue, children: seq<string>)
    ensures ReleaseAll(q, children).next == q.next + Added(q, children)
  {
    if children != [] { QueueGrows(q, children[..|children| - 1]); }
  }

  lemma {:induction false} AddedSorted(steps: seq<Step>, q: Queue, children: seq<string>)
    requires PlanSorted(steps, children)
    ensures PlanSorted(steps, Added(q, children)) && forall c :: c in Added(q, children) ==> c in children
  {
    if children != [] {
      var init, last := children[..|children| - 1], children[|children| - 1];
      AddedSorted(steps, q, init);
      forall c | c in Added(q, init) ensures Place(steps, c) <= Place(steps, last) {
        var i :| 0 <= i < |init| && init[i] == c;
        assert children[i] == c;
      }
    }
  }

  /** Processing a layer: degrees fall by occurrences and exactly the ids that reach zero are queued. */
  lemma {:induction false} StepsRelease(steps: seq<Step>, layer: seq<string>, q: Queue)
    requires q.degree.Keys == Adjacency(steps).Keys && q.next == []
    ensures var r := ReleaseSteps(steps, layer, q);
      && r.degree.Keys == q.degree.Keys && NoDuplicates(r.next)
      && (forall c :: c in q.degree ==> r.degree[c] == q.degree[c] - Released(steps, layer, c))
      && (forall c :: c in r.next <==> c in q.degree && q.degree[c] > 0 && r.degree[c] <= 0)
  {
    if layer != [] {
      var init, last := layer[..|layer| - 1], layer[|layer| - 1];
      StepsRelease(steps, init, q);
      ReleaseMore(steps, q, ReleaseSteps(steps, init, q), last);
    }
  }

  lemma ReleaseMore(steps: seq<Step>, q: Queue, m: Queue, id: string)
    requires m.degree.Keys == q.degree.Keys == Adjacency(steps).Keys && NoDuplicates(m.next)
    requires forall c :: c in q.degree ==> m.degree[c] <= q.degree[c]
    requires forall c :: c in m.next <==> c in q.degree && q.degree[c] > 0 && m.degree[c] <= 0
    ensures var r := ReleaseAll(m, Children(steps, id));
      && r.degree.Keys == q.degree.Keys && NoDuplicates(r.next)
      && (forall c :: c in q.degree ==> r.degree[c] == m.degree[c] - multiset(Children(steps, id))[c])
      && (forall c :: c in r.next <==> c in q.degree && q.degree[c] > 0 && r.degree[c] <= 0)
  {
    ChildrenAreSteps(steps, id);
    ReleasedDegrees(m, Children(steps, id));
    ReleasedQueue(m, Children(steps, id));
  }

  /** What the search knows between two rounds. */
  ghost predicate Searching(plan: Plan, degree: map<string, int>, layers: seq<seq<string>>, queue: seq<string>) {
    && degree.Keys == StepIds(plan)
    && NoDuplicates(Flatten(layers + [queue]))
    && (forall x :: x in Flatten(layers + [queue]) <==> x in degree && degree[x] <= 0)
    && (forall k :: 0 <= k < |layers| ==> layers[k] != [])
    && (UniqueIds(plan) ==> Laid(plan, degree, layers, queue))
  }

  ghost predicate Laid(plan: Plan, degree: map<string, int>, layers: seq<seq<string>>, queue: seq<string>) {
    && LayersDescend(plan, layers + [queue]) && InOrder(plan, layers + [queue])
    && forall c :: c in degree ==> degree[c] == Outstanding(Deps(plan, c), Elements(Flatten(layers)))
  }

  lemma {:induction false} LastDependencyBelow(plan: Plan, layer: seq<string>, x: string, i: nat)
    requires i <= |layer| && forall j :: i <= j < |layer| ==> layer[j] !in Deps(plan, x)
    ensures LastDependency(plan, layer, x) < i
  {
    if i < |layer| { LastDependencyBelow(plan, layer[..|layer| - 1], x, i); }
  }

  lemma {:induction false} LastDependencyAt(plan: Plan, layer: seq<string>, x: string, i: nat)
    requires i < |layer| && layer[i] in Deps(plan, x)
    ensures LastDependency(plan, layer, x) >= i
  {
    if i < |layer| - 1 { LastDependencyAt(plan, layer[..|layer| - 1], x, i); }
  }

  /**
   * Once all entries of the list of x lie in done and a prefix of the layer, its last dependency lies in that prefix.
   */
  lemma ReleasedEarly(plan: Plan, layer: seq<string>, i: nat, done: set<string>, x: string)
    requires NoDuplicates(layer) && i <= |layer| && (forall p :: p in layer ==> p !in done)
    requires Outstanding(Deps(plan, x), done + Elements(layer[..i])) == 0
    ensures LastDependency(plan, layer, x) < i
  {
    OutstandingZero(Deps(plan, x), done + Elements(layer[..i]));
    forall j | i <= j < |layer| ensures layer[j] !in Deps(plan, x) {
      assert forall k :: 0 <= k < i ==> layer[..i][k] == layer[k];
    }
    LastDependencyBelow(plan, layer, x, i);
  }

  /** The queue after the first i elements of a layer. */
  ghost predicate Filling(plan: Plan, layer: seq<string>, i: nat, next: seq<string>) {
    && Arranged(plan, layer, next)
    && forall x :: x in next ==> LastDependency(plan, layer, x) < i
  }

  lemma FillMore(plan: Plan, layer: seq<string>, i: nat, j: nat, next: seq<string>, added: seq<string>)
    requires UniqueIds(plan) && j == i + 1 && Filling(plan, layer, i, next) && NoDuplicates(added)
    requires PlanSorted(plan.steps, added)
    requires forall x :: x in added ==> x in StepIds(plan) && LastDependency(plan, layer, x) == i
    ensures Filling(plan, layer, j, next + added)
  {
    var all := next + added;
    forall a, b | 0 <= a < b < |all| ensures StandsBefore(plan, layer, all[a], all[b]) {
      if b < |next| {
        assert StandsBefore(plan, layer, next[a], next[b]);
      } else if a < |next| {
        assert all[a] in next && all[b] in added;
      } else {
        var c, d := a - |next|, b - |next|;
        assert all[a] == added[c] && all[b] == added[d];
        if Place(plan.steps, added[c]) == Place(plan.steps, added[d]) { PlaceInjective(plan, added[c], added[d]); }
      }
    }
  }

  /** Where a step released by the element at position i has its last dependency. */
  lemma ReleasedHere(plan: Plan, layer: seq<string>, i: nat, done: set<string>, degree: map<string, int>, x: string)
    requires UniqueIds(plan) && NoDuplicates(layer) && i < |layer| && (forall p :: p in layer ==> p !in done)
    requires x in StepIds(plan) && x in degree && degree[x] == Outstanding(Deps(plan, x), done)
    requires degree[x] <= Released(plan.steps, layer[..i + 1], x) && x in Children(plan.steps, layer[i])
    ensures LastDependency(plan, layer, x) == i
  {
    var upTo := layer[..i + 1];
    PrefixDistinct(layer, i + 1);
    ReleasedIsOutstanding(plan, upTo, done, x);
    ReleasedEarly(plan, layer, i + 1, done, x);
    ChildOccurrences(plan, layer[i], x);
    LastDependencyAt(plan, layer, x, i);
  }

  lemma PrefixDistinct(layer: seq<string>, n: nat)
    requires NoDuplicates(layer) && n <= |layer|
    ensures NoDuplicates(layer[..n]) && forall x :: x in layer[..n] ==> x in layer
  {
    assert layer == layer[..n] + layer[n..];
    NoDuplicatesSplit(layer[..n], layer[n..]);
  }

  lemma {:induction false} LayerFills(plan: Plan, layer: seq<string>, i: nat, done: set<string>,
                                      degree: map<string, int>)
    requires UniqueIds(plan) && NoDuplicates(layer) && i <= |layer| && (forall p :: p in layer ==> p !in done)
    requires degree.Keys == StepIds(plan)
    requires forall x :: x in degree ==> degree[x] == Outstanding(Deps(plan, x), done)
    ensures Filling(plan, layer, i, ReleaseSteps(plan.steps, layer[..i], Queue(degree, [])).next)
  {
    if i > 0 {
      var h := i - 1;
      LayerFills(plan, layer, h, done, degree);
      var q := Queue(degree, []);
      var m := ReleaseSteps(plan.steps, layer[..h], q);
      var children := Children(plan.steps, layer[h]);
      LayerStep(plan.steps, layer, h, i, q);
      QueueGrows(m, children);
      assert plan.steps[..|plan.steps|] == plan.steps;
      ChildrenSorted(plan, |plan.steps|, layer[h]);
      AddedSorted(plan.steps, m, children);
      StepsRelease(plan.steps, layer[..i], q);
      NoDuplicatesSplit(m.next, Added(m, children));
      forall x | x in Added(m, children) ensures x in StepIds(plan) && LastDependency(plan, layer, x) == h {
        assert x in m.next + Added(m, children);
        ReleasedHere(plan, layer, h, done, degree, x);
      }
      FillMore(plan, layer, h, i, m.next, Added(m, children));
    }
  }

  /** The next queue is arranged by the layer it follows. */
  lemma NextArranged(plan: Plan, degree: map<string, int>, layers: seq<seq<string>>, queue: seq<string>,
                     next: seq<string>)
    requires Searching(plan, degree, layers, queue) && UniqueIds(plan)
    requires next == ReleaseSteps(plan.steps, queue, Queue(degree, [])).next
    ensures Arranged(plan, queue, next)
  {
    FlattenAppend(layers, queue);
    NoDuplicatesSplit(Flatten(layers), queue);
    LayerFills(plan, queue, |queue|, Elements(Flatten(layers)), degree);
    assert queue[..|queue|] == queue;
  }

  lemma {:induction false} FirstArranged(plan: Plan, n: nat, degree: map<string, int>)
    requires UniqueIds(plan) && n <= |plan.steps|
    ensures Arranged(plan, [], FirstIds(plan.steps[..n], degree))
    ensures forall x :: x in FirstIds(plan.steps[..n], degree) ==> Place(plan.steps, x) < n
  {
    if n > 0 {
      var m := n - 1;
      FirstArranged(plan, m, degree);
      FirstStep(plan.steps, degree, m, n);
      PlaceInPlan(plan, m);
    }
  }

  lemma FlattenAppend(layers: seq<seq<string>>, layer: seq<string>)
    ensures Flatten(layers + [layer]) == Flatten(layers) + layer
  {
    assert (layers + [layer])[..|layers|] == layers;
  }

  lemma SearchStep(plan: Plan, degree: map<string, int>, layers: seq<seq<string>>, queue: seq<string>,
                   deg: map<string, int>, next: seq<string>)
    requires Searching(plan, degree, layers, queue) && queue != []
    requires deg.Keys == degree.Keys
    requires forall c :: c in degree ==> deg[c] == degree[c] - Released(plan.steps, queue, c)
    requires NoDuplicates(next)
    requires forall c :: c in next <==> c in degree && degree[c] > 0 && deg[c] <= 0
    requires next == ReleaseSteps(plan.steps, queue, Queue(degree, [])).next
    ensures Searching(plan, deg, layers + [queue], next)
  {
    var layers' := layers + [queue];
    FlattenAppend(layers', next);
    NoDuplicatesConcat(Flatten(layers'), next);
    if UniqueIds(plan) { LaidStep(plan, degree, layers, queue, deg, layers', next); }
  }

  lemma LaidStep(plan: Plan, degree: map<string, int>, layers: seq<seq<string>>, queue: seq<string>,
                 deg: map<string, int>, grown: seq<seq<string>>, next: seq<string>)
    requires Searching(plan, degree, layers, queue) && queue != [] && UniqueIds(plan) && grown == layers + [queue]
    requires deg.Keys == degree.Keys
    requires forall c :: c in degree ==> deg[c] == degree[c] - Released(plan.steps, queue, c)
    requires forall c :: c in next ==> c in degree && degree[c] > 0 && deg[c] <= 0
    requires next == ReleaseSteps(plan.steps, queue, Queue(degree, [])).next
    ensures Laid(plan, deg, grown, next)
  {
    forall c | c in deg
      ensures deg[c] == Outstanding(Deps(plan, c), Elements(Flatten(grown)))
      ensures c in next ==> Follows(plan, grown, c)
    {
      DegreeStep(plan, degree[c], deg[c], layers, queue, c);
    }
    DescendAppend(plan, grown, next);
    NextArranged(plan, degree, layers, queue, next);
    InOrderAppend(plan, grown, next);
  }

  lemma InOrderAppend(plan: Plan, layers: seq<seq<string>>, next: seq<string>)
    requires layers != [] && InOrder(plan, layers) && Arranged(plan, layers[|layers| - 1], next)
    ensures InOrder(plan, layers + [next])
  {
    var all := layers + [next];
    forall k | 0 <= k < |all| ensures Arranged(plan, Previous(all, k), all[k]) {
      SamePrevious(layers, next, all, k);
      if k < |layers| { assert Arranged(plan, Previous(layers, k), layers[k]); }
    }
  }

  lemma SamePrevious(layers: seq<seq<string>>, next: seq<string>, all: seq<seq<string>>, k: nat)
    requires all == layers + [next] && k < |all|
    ensures Previous(all, k) == Previous(layers, k) && all[k] == if k < |layers| then layers[k] else next
  {
  }

  lemma InOrderInit(plan: Plan, layers: seq<seq<string>>, next: seq<string>)
    requires InOrder(plan, layers + [next])
    ensures InOrder(plan, layers)
  {
    var all := layers + [next];
    forall k | 0 <= k < |layers| ensures Arranged(plan, Previous(layers, k), layers[k]) {
      SamePrevious(layers, next, all, k);
      assert Arranged(plan, Previous(all, k), all[k]);
    }
  }

  lemma DegreeStep(plan: Plan, before: int, after: int, layers: seq<seq<string>>, queue: seq<string>, c: string)
    requires UniqueIds(plan) && c in StepIds(plan) && queue != [] && NoDuplicates(Flatten(layers + [queue]))
    requires before == Outstanding(Deps(plan, c), Elements(Flatten(layers)))
    requires after == before - Released(plan.steps, queue, c)
    ensures after == Outstanding(Deps(plan, c), Elements(Flatten(layers + [queue])))
    ensures before > 0 && after <= 0 ==> Follows(plan, layers + [queue], c)
  {
    var done := Flatten(layers);
    FlattenAppend(layers, queue);
    NoDuplicatesSplit(done, queue);
    assert Elements(Flatten(layers + [queue])) == Elements(done) + Elements(queue);
    ReleasedIsOutstanding(plan, queue, Elements(done), c);
    OutstandingZero(Deps(plan, c), Elements(Flatten(layers + [queue])));
  }

  lemma DescendAppend(plan: Plan, layers: seq<seq<string>>, next: seq<string>)
    requires LayersDescend(plan, layers)
    requires forall c :: c in next ==> Follows(plan, layers, c)
    ensures LayersDescend(plan, layers + [next])
  {
    var all := layers + [next];
    forall k, x | 0 <= k < |all| && x in all[k] ensures Follows(plan, all[..k], x) {
      if k < |layers| { assert all[..k] == layers[..k]; } else { assert all[..k] == layers; }
    }
  }

  /**
   * Layering by repeatedly removing the steps without outstanding dependencies. No step is emitted twice, whatever
   * the plan; with unique ids the result is a layering and every layer stands in order.
   */
  method GetExecutionOrder(plan: Plan) returns (layers: seq<seq<string>>)
    ensures layers == OrderOf(plan.steps)
    ensures NoDuplicates(Flatten(layers))
    ensures forall x :: x in Flatten(layers) ==> x in StepIds(plan)
    ensures UniqueIds(plan) ==> Layering(plan, layers) && InOrder(plan, layers)
  {
    var degree, adj := BuildTables(plan);
    var queue := FirstQueue(plan, degree);
    layers := [];
    SearchStart(plan, degree, queue);
    while queue != []
      invariant Searching(plan, degree, layers, queue)
      invariant SearchAfter(plan.steps, |layers|) == Search(layers, degree, queue)
      decreases StepIds(plan) - Elements(Flatten(layers))
    {
      var deg, next := ReleaseLayer(plan.steps, adj, queue, degree);
      SearchStep(plan, degree, layers, queue, deg, next);
      var grown := layers + [queue];
      Progress(plan, degree, layers, queue, grown);
      RoundStep(plan.steps, Search(layers, degree, queue), |layers|, |grown|);
      layers, degree, queue := grown, deg, next;
    }
    Finished(plan, degree, layers);
    RoundsBounded(plan, layers);
    SearchStable(plan.steps, |layers|, |plan.steps|);
  }

  lemma RoundStep(steps: seq<Step>, s: Search, n: nat, next: nat)
    requires next == n + 1 && SearchAfter(steps, n) == s
    ensures SearchAfter(steps, next) == NextRound(steps, s)
  {
  }

  lemma SearchStart(plan: Plan, degree: map<string, int>, queue: seq<string>)
    requires degree.Keys == StepIds(plan) && forall c :: c in degree ==> degree[c] == |Deps(plan, c)|
    requires NoDuplicates(queue) && forall x :: x in queue <==> x in degree && degree[x] == 0
    requires queue == FirstIds(plan.steps, degree)
    ensures Searching(plan, degree, [], queue)
  {
    FlattenAppend([], queue);
    if UniqueIds(plan) { LaidStart(plan, degree, queue); }
  }

  lemma LaidStart(plan: Plan, degree: map<string, int>, queue: seq<string>)
    requires UniqueIds(plan) && forall c :: c in degree ==> degree[c] == |Deps(plan, c)|
    requires forall x :: x in queue ==> x in degree && degree[x] == 0
    requires queue == FirstIds(plan.steps, degree)
    ensures Laid(plan, degree, [], queue)
  {
    assert plan.steps[..|plan.steps|] == plan.steps;
    FirstArranged(plan, |plan.steps|, degree);
    forall c | c in degree ensures degree[c] == Outstanding(Deps(plan, c), {}) {
      OutstandingZero(Deps(plan, c), {});
    }
    assert Elements(Flatten([])) == {};
  }

  lemma Progress(plan: Plan, degree: map<string, int>, layers: seq<seq<string>>, queue: seq<string>,
                 grown: seq<seq<string>>)
    requires Searching(plan, degree, layers, queue) && queue != [] && grown == layers + [queue]
    ensures StepIds(plan) - Elements(Flatten(grown)) < StepIds(plan) - Elements(Flatten(layers))
  {
    FlattenAppend(layers, queue);
    NoDuplicatesSplit(Flatten(layers), queue);
    var q := queue[0];
    assert q in Flatten(layers + [queue]);
    assert q in StepIds(plan) - Elements(Flatten(layers));
  }

  lemma Finished(plan: Plan, degree: map<string, int>, layers: seq<seq<string>>)
    requires Searching(plan, degree, layers, [])
    ensures NoDuplicates(Flatten(layers))
    ensures forall x :: x in Flatten(layers) ==> x in StepIds(plan)
    ensures UniqueIds(plan) ==> Layering(plan, layers) && InOrder(plan, layers)
  {
    FlattenAppend(layers, []);
    assert Flatten(layers + [[]]) == Flatten(layers);
    if UniqueIds(plan) { LaidEnd(plan, degree, layers, []); }
  }

  lemma LaidEnd(plan: Plan, degree: map<string, int>, layers: seq<seq<string>>, queue: seq<string>)
    requires Laid(plan, degree, layers, queue) && degree.Keys == StepIds(plan)
    requires NoDuplicates(Flatten(layers)) && forall k :: 0 <= k < |layers| ==> layers[k] != []
    requires forall x :: x in Flatten(layers) <==> x in degree && degree[x] <= 0
    ensures Layering(plan, layers) && InOrder(plan, layers)
  {
    InOrderInit(plan, layers, queue);
    DescendInit(plan, layers, queue);
    forall x | x in StepIds(plan) && x !in Flatten(layers)
      ensures exists d :: d in Deps(plan, x) && d !in Flatten(layers)
    {
      OutstandingZero(Deps(plan, x), Elements(Flatten(layers)));
    }
  }

  lemma DescendInit(plan: Plan, layers: seq<seq<string>>, next: seq<string>)
    requires LayersDescend(plan, layers + [next])
    ensures LayersDescend(plan, layers)
  {
    var all := layers + [next];
    forall k, x | 0 <= k < |layers| && x in layers[k] ensures Follows(plan, layers[..k], x) {
      assert x in all[k] && all[..k] == layers[..k];
    }
  }

  /** The initial queue: in dictionary order, the ids whose dependency list is empty. */
  method FirstQueue(plan: Plan, degree: map<string, int>) returns (queue: seq<string>)
    requires degree.Keys == StepIds(plan)
    ensures queue == FirstIds(plan.steps, degree)
    ensures NoDuplicates(queue)
    ensures forall x :: x in queue <==> x in degree && degree[x] == 0
  {
    queue := [];
    ghost var seen := {};
    var k := 0;
    while k < |plan.steps|
      invariant k <= |plan.steps| && seen == set s | s in plan.steps[..k] :: s.id
      invariant queue == FirstIds(plan.steps[..k], degree) && NoDuplicates(queue)
      invariant forall x :: x in queue <==> x in seen && x in degree && degree[x] == 0
    {
      var id, next := plan.steps[k].id, k + 1;
      assert id in degree by { assert plan.steps[k] in plan.steps; }
      FirstStep(plan.steps, degree, k, next);
      if degree[id] == 0 && id !in queue {
        NoDuplicatesAppend(queue, id);
        queue := queue + [id];
      }
      SeenStep(plan.steps, k, next);
      seen := seen + {id};
      k := next;
    }
    assert plan.steps[..|plan.steps|] == plan.steps;
  }

  lemma SeenStep(steps: seq<Step>, k: nat, next: nat)
    requires next == k + 1 <= |steps|
    ensures (set s | s in steps[..next] :: s.id) == (set s | s in steps[..k] :: s.id) + {steps[k].id}
  {
    assert steps[..next] == steps[..k] + [steps[k]];
  }

  lemma FirstStep(steps: seq<Step>, degree: map<string, int>, k: nat, next: nat)
    requires next == k + 1 <= |steps|
    ensures var before, id := FirstIds(steps[..k], degree), steps[k].id;
      FirstIds(steps[..next], degree) ==
        before + (if id in degree && degree[id] == 0 && id !in before then [id] else [])
  {
    assert steps[..next][..k] == steps[..k];
  }
}
