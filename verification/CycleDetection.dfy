/** The depth-first cycle detector and plan validation (youmi/coordinator/plan.py). */
module CycleDetection {
  import opened Common
  import opened WorkflowPlans

  /** A cycle without repeated inner vertices, written with its start at both ends. */
  ghost predicate SimpleCycle(g: Graph, c: seq<string>) {
    ClosedWalk(g, c) && NoDuplicates(c[..|c| - 1])
  }

  /** Every vertex comes after all its dependencies. */
  ghost predicate FinishOrder(g: Graph, order: seq<string>) {
    forall i, v :: 0 <= i < |order| && Edge(g, order[i], v) ==> v in order[..i]
  }

  /** Along a walk that starts at position i of a finish order, positions strictly decrease. */
  lemma {:induction false} WalkDescends(g: Graph, order: seq<string>, w: seq<string>, i: nat, k: nat)
    requires FinishOrder(g, order) && Walk(g, w) && k < |w|
    requires i < |order| && order[i] == w[0]
    ensures w[k] in order[..i + 1]
    ensures k > 0 ==> w[k] in order[..i]
  {
    if k > 0 {
      WalkDescends(g, order, w, i, k - 1);
      assert Edge(g, w[k - 1], w[k]);
      var j :| 0 <= j <= i && order[j] == w[k - 1];
      assert w[k] in order[..j];
    }
  }

  /** A finish order that covers the graph rules out every closed walk. */
  lemma FinishOrderAcyclic(g: Graph, order: seq<string>)
    requires FinishOrder(g, order) && NoDuplicates(order)
    requires forall u :: u in g ==> u in order
    ensures Acyclic(g)
  {
    forall w | ClosedWalk(g, w) ensures false {
      assert Edge(g, w[0], w[1]);
      var i :| 0 <= i < |order| && order[i] == w[0];
      WalkDescends(g, order, w, i, |w| - 1);
    }
  }

  class Detector {
    const adj: Graph
    var visited: set<string>
    var inStack: set<string>
    var path: seq<string>
    ghost var finished: seq<string>  // vertices in the order in which dfs left them

    ghost predicate Valid()
      reads this
    {
      && NoDuplicates(path) && NoDuplicates(finished)
      && inStack == Elements(path)
      && visited == inStack + Elements(finished) && inStack !! Elements(finished)
      && visited <= Nodes(adj)
      && Walk(adj, path)
      && FinishOrder(adj, finished)
    }

    constructor (adj: Graph)
      ensures Valid() && this.adj == adj && path == [] && visited == {}
    {
      this.adj := adj;
      visited, inStack, path, finished := {}, {}, [], [];
    }

    /** Either a cycle, or the call leaves the stack as it was and the node finished. */
    method Dfs(node: string) returns (cycle: Option<seq<string>>)
      requires Valid() && node !in visited && node in Nodes(adj)
      requires path != [] ==> Edge(adj, path[|path| - 1], node)
      modifies this
      ensures cycle.Some? ==> SimpleCycle(adj, cycle.value)
      ensures cycle.None? ==> Valid() && path == old(path) && old(finished) <= finished && node in finished
      decreases Nodes(adj) - visited
    {
      Enter(node);
      ghost var before := path;
      var deps := if node in adj then adj[node] else [];
      var i := 0;
      while i < |deps|
        invariant i <= |deps|
        invariant Valid() && path == before
        invariant old(visited) + {node} <= visited && old(finished) <= finished
        invariant forall j :: 0 <= j < i ==> deps[j] in finished
      {
        var dep := deps[i];
        assert Edge(adj, node, dep);
        if dep !in visited {
          cycle := Dfs(dep);
          if cycle.Some? { return; }
        } else if dep in inStack {
          var idx := IndexOf(path, dep);
          ClosePath(adj, path, idx, dep);
          return Some(path[idx..] + [dep]);
        }
        i := i + 1;
      }
      Leave(node);
      cycle := None;
    }

    method Enter(node: string)
      requires Valid() && node !in visited && node in Nodes(adj)
      requires path != [] ==> Edge(adj, path[|path| - 1], node)
      modifies this
      ensures Valid() && path == old(path) + [node]
      ensures finished == old(finished) && visited == old(visited) + {node}
    {
      visited := visited + {node};
      inStack := inStack + {node};
      assert node !in path;
      if path != [] { WalkExtend(adj, path, node); }
      NoDuplicatesAppend(path, node);
      path := path + [node];
    }

    method Leave(node: string)
      requires Valid() && path != [] && path[|path| - 1] == node
      requires forall v :: Edge(adj, node, v) ==> v in finished
      modifies this
      ensures Valid() && path == old(path)[..|old(path)| - 1]
      ensures finished == old(finished) + [node] && visited == old(visited)
    {
      assert node in inStack;
      path := path[..|path| - 1];
      inStack := inStack - {node};
      NoDuplicatesAppend(finished, node);
      finished := finished + [node];
      assert old(path) == path + [node];
      assert Elements(finished) == Elements(old(finished)) + {node};
      forall i, v | 0 <= i < |finished| && Edge(adj, finished[i], v) ensures v in finished[..i] {
        assert finished[..|finished| - 1] == old(finished);
        if i < |finished| - 1 { assert finished[..i] == old(finished)[..i]; }
      }
    }
  }

  lemma ClosePath(g: Graph, path: seq<string>, idx: nat, dep: string)
    requires Walk(g, path) && NoDuplicates(path) && idx < |path| && path[idx] == dep
    requires Edge(g, path[|path| - 1], dep)
    ensures SimpleCycle(g, path[idx..] + [dep])
  {
    WalkTail(g, path, idx);
    var tail := path[idx..];
    WalkExtend(g, tail, dep);
    var c := tail + [dep];
    assert c[..|c| - 1] == tail;
  }

  /** The detector reports nothing exactly on acyclic graphs, and what it reports is a cycle. */
  method DetectCycle(plan: Plan) returns (cycle: Option<seq<string>>)
    ensures cycle.None? <==> Acyclic(Adjacency(plan.steps))
    ensures cycle.Some? ==> SimpleCycle(Adjacency(plan.steps), cycle.value)
  {
    var g := Adjacency(plan.steps);
    var d := new Detector(g);
    for k := 0 to |plan.steps|
      invariant d.Valid() && d.adj == g && d.path == []
      invariant forall j :: 0 <= j < k ==> plan.steps[j].id in d.finished
    {
      var id := plan.steps[k].id;
      assert id in g.Keys by { assert plan.steps[k] in plan.steps; }
      if id !in d.visited {
        cycle := d.Dfs(id);
        if cycle.Some? { return; }
      }
    }
    forall u | u in g ensures u in d.finished {
      var s :| s in plan.steps && s.id == u;
    }
    FinishOrderAcyclic(g, d.finished);
    cycle := None;
  }

  datatype PlanError =
    | DuplicateStepId
    | MissingDependency(step: string, dep: string)
    | SelfDependency(step: string)
    | DependencyCycle(cycle: seq<string>)

  ghost predicate ValidPlan(plan: Plan) {
    && UniqueIds(plan) && DependenciesResolved(plan) && NoSelfDependency(plan)
    && Acyclic(Adjacency(plan.steps))
  }

  /** The errors one step contributes, in the order in which they are appended. */
  function MissingOf(id: string, deps: seq<string>, ids: set<string>): seq<PlanError> {
    if deps == [] then []
    else (if deps[0] in ids then [] else [MissingDependency(id, deps[0])]) + MissingOf(id, deps[1..], ids)
  }

  function StepErrors(s: Step, ids: set<string>): seq<PlanError> {
    MissingOf(s.id, s.dependsOn, ids) + if s.id in s.dependsOn then [SelfDependency(s.id)] else []
  }

  function ReferenceErrors(steps: seq<Step>, ids: set<string>): seq<PlanError> {
    if steps == [] then []
    else ReferenceErrors(steps[..|steps| - 1], ids) + StepErrors(steps[|steps| - 1], ids)
  }

  lemma {:induction false} MissingOfExact(id: string, deps: seq<string>, ids: set<string>)
    ensures MissingOf(id, deps, ids) == [] <==> forall d :: d in deps ==> d in ids
    ensures forall e :: e in MissingOf(id, deps, ids) <==>
      e.MissingDependency? && e.step == id && e.dep in deps && e.dep !in ids
  {
    if deps != [] {
      MissingOfExact(id, deps[1..], ids);
      assert deps == [deps[0]] + deps[1..];
      if deps[0] !in ids { assert MissingOf(id, deps, ids)[0] == MissingDependency(id, deps[0]); }
    }
  }

  /** The errors a step deserves: one per unresolved dependency, and one if it depends on itself. */
  predicate Deserves(s: Step, ids: set<string>, e: PlanError) {
    || (e.MissingDependency? && e.step == s.id && e.dep in s.dependsOn && e.dep !in ids)
    || (e.SelfDependency? && e.step == s.id && s.id in s.dependsOn)
  }

  lemma StepErrorsExact(s: Step, ids: set<string>)
    ensures forall e :: e in StepErrors(s, ids) <==> Deserves(s, ids, e)
    ensures StepErrors(s, ids) == [] <==> (forall d :: d in s.dependsOn ==> d in ids) && s.id !in s.dependsOn
  {
    MissingOfExact(s.id, s.dependsOn, ids);
  }

  /** The reference errors name exactly the unresolved and the self dependencies. */
  lemma {:induction false} ReferenceErrorsExact(steps: seq<Step>, ids: set<string>)
    ensures forall e :: e in ReferenceErrors(steps, ids) <==> exists s :: s in steps && Deserves(s, ids, e)
    ensures ReferenceErrors(steps, ids) == [] <==>
      forall s :: s in steps ==> (forall d :: d in s.dependsOn ==> d in ids) && s.id !in s.dependsOn
  {
    if steps != [] {
      var init, last := steps[..|steps| - 1], steps[|steps| - 1];
      ReferenceErrorsExact(init, ids);
      StepErrorsExact(last, ids);
      assert steps == init + [last];
      assert forall s :: s in steps <==> s in init || s == last;
    }
  }

  lemma DistinctIdCount(plan: Plan)
    ensures |StepIds(plan)| == |plan.steps| <==> UniqueIds(plan)
  {
    var ids := seq(|plan.steps|, i requires 0 <= i < |plan.steps| => plan.steps[i].id);
    assert StepIds(plan) == Elements(ids) by {
      forall x | x in StepIds(plan) ensures x in ids {
        var s :| s in plan.steps && s.id == x;
        var i :| 0 <= i < |plan.steps| && plan.steps[i] == s;
        assert ids[i] == x;
      }
    }
    DistinctCount(ids);
    assert NoDuplicates(ids) <==> UniqueIds(plan) by {
      assert forall i :: 0 <= i < |ids| ==> ids[i] == plan.steps[i].id;
    }
  }

  method CheckDependencies(step: Step, ids: set<string>, errors: seq<PlanError>) returns (out: seq<PlanError>)
    ensures out == errors + StepErrors(step, ids)
  {
    out := errors;
    assert step.dependsOn[0..] == step.dependsOn;
    for j := 0 to |step.dependsOn|
      invariant out + MissingOf(step.id, step.dependsOn[j..], ids) == errors + MissingOf(step.id, step.dependsOn, ids)
    {
      if step.dependsOn[j] !in ids {
        out := out + [MissingDependency(step.id, step.dependsOn[j])];
      }
      assert step.dependsOn[j..][1..] == step.dependsOn[j + 1..];
    }
    assert out == errors + MissingOf(step.id, step.dependsOn, ids);
    if step.id in step.dependsOn {
      out := out + [SelfDependency(step.id)];
    }
  }

  method CheckReferences(plan: Plan, ids: set<string>, errors: seq<PlanError>) returns (out: seq<PlanError>)
    ensures out == errors + ReferenceErrors(plan.steps, ids)
  {
    out := errors;
    for k := 0 to |plan.steps|
      invariant out == errors + ReferenceErrors(plan.steps[..k], ids)
    {
      out := CheckDependencies(plan.steps[k], ids, out);
      ReferenceErrorsStep(plan.steps, k, ids);
    }
    assert plan.steps[..|plan.steps|] == plan.steps;
  }

  /** Validation accepts exactly the valid plans; a cycle is only looked for in otherwise clean plans. */
  method Validate(plan: Plan) returns (errors: seq<PlanError>)
    ensures errors == [] <==> ValidPlan(plan)
    ensures DuplicateStepId in errors <==> !UniqueIds(plan)
    ensures forall s, d :: MissingDependency(s, d) in errors <==>
      exists st :: st in plan.steps && st.id == s && d in st.dependsOn && d !in StepIds(plan)
    ensures forall s :: SelfDependency(s) in errors <==>
      exists st :: st in plan.steps && st.id == s && s in st.dependsOn
    ensures forall c :: DependencyCycle(c) in errors ==> |errors| == 1 && SimpleCycle(Adjacency(plan.steps), c)
  {
    var ids := StepIds(plan);
    errors := [];
    DistinctIdCount(plan);
    if |ids| != |plan.steps| {
      errors := [DuplicateStepId];
    }
    ghost var first := errors;
    errors := CheckReferences(plan, ids, errors);
    ReferenceErrorsExact(plan.steps, ids);
    ReferenceErrorMembers(plan, errors, first);
    if errors == [] {
      var cycle := DetectCycle(plan);
      if cycle.Some? {
        errors := [DependencyCycle(cycle.value)];
      }
    }
  }

  lemma ReferenceErrorsStep(steps: seq<Step>, k: nat, ids: set<string>)
    requires k < |steps|
    ensures ReferenceErrors(steps[..k + 1], ids) == ReferenceErrors(steps[..k], ids) + StepErrors(steps[k], ids)
  {
    assert steps[..k + 1][..k] == steps[..k];
  }

  lemma ReferenceErrorMembers(plan: Plan, errors: seq<PlanError>, first: seq<PlanError>)
    requires errors == first + ReferenceErrors(plan.steps, StepIds(plan))
    requires first == [] || first == [DuplicateStepId]
    ensures DuplicateStepId in errors <==> first != []
    ensures forall s, d :: MissingDependency(s, d) in errors <==>
      exists st :: st in plan.steps && st.id == s && d in st.dependsOn && d !in StepIds(plan)
    ensures forall s :: SelfDependency(s) in errors <==>
      exists st :: st in plan.steps && st.id == s && s in st.dependsOn
    ensures forall c :: DependencyCycle(c) !in errors
  {
    var ids, found := StepIds(plan), ReferenceErrors(plan.steps, StepIds(plan));
    ReferenceErrorsExact(plan.steps, ids);
    forall e: PlanError ensures e in errors <==> e in found || e in first {
    }
    forall s, d ensures MissingDependency(s, d) in errors <==>
      exists st :: st in plan.steps && st.id == s && d in st.dependsOn && d !in ids {
      assert MissingDependency(s, d) in errors <==>
        exists st :: st in plan.steps && Deserves(st, ids, MissingDependency(s, d));
    }
    forall s ensures SelfDependency(s) in errors <==> exists st :: st in plan.steps && st.id == s && s in st.dependsOn {
      assert SelfDependency(s) in errors <==> exists st :: st in plan.steps && Deserves(st, ids, SelfDependency(s));
    }
  }
}
