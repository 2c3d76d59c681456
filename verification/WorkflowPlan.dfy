/** Workflow plans and their dependency graph (youmi/coordinator/plan.py). */
module WorkflowPlans {
  import opened Common

  datatype Step = Step(
    id: string, role: string, task: string, dependsOn: seq<string>,
    allowedTools: seq<string>, retryCount: int)

  datatype Plan = Plan(name: string, steps: seq<Step>)

  /** id -> dependency list; as in a Python dict comprehension a later step overwrites an earlier one. */
  type Graph = map<string, seq<string>>

  function Adjacency(steps: seq<Step>): (g: Graph)
    ensures g.Keys == set s | s in steps :: s.id
  {
    if steps == [] then map[]
    else
      var last := steps[|steps| - 1];
      assert steps == steps[..|steps| - 1] + [last];
      Adjacency(steps[..|steps| - 1])[last.id := last.dependsOn]
  }

  function StepIds(plan: Plan): set<string> {
    set s | s in plan.steps :: s.id
  }

  ghost predicate UniqueIds(plan: Plan) {
    forall i, j :: 0 <= i < j < |plan.steps| ==> plan.steps[i].id != plan.steps[j].id
  }

  ghost predicate DependenciesResolved(plan: Plan) {
    forall s, d :: s in plan.steps && d in s.dependsOn ==> d in StepIds(plan)
  }

  ghost predicate NoSelfDependency(plan: Plan) {
    forall s :: s in plan.steps ==> s.id !in s.dependsOn
  }

  /** An edge leads from a step to one it depends on. */
  predicate Edge(g: Graph, u: string, v: string) {
    u in g && v in g[u]
  }

  ghost predicate Walk(g: Graph, w: seq<string>) {
    forall i :: 0 <= i < |w| - 1 ==> Edge(g, w[i], w[i + 1])
  }

  ghost predicate ClosedWalk(g: Graph, w: seq<string>) {
    |w| >= 2 && Walk(g, w) && w[0] == w[|w| - 1]
  }

  ghost predicate Acyclic(g: Graph) {
    forall w :: !ClosedWalk(g, w)
  }

  function Nodes(g: Graph): set<string> {
    g.Keys + set u, v | u in g && v in g[u] :: v
  }

  /** With unique ids the adjacency map holds exactly every step's own dependency list. */
  lemma {:induction false} AdjacencyOfUnique(steps: seq<Step>, k: nat)
    requires k < |steps|
    requires forall i, j :: 0 <= i < j < |steps| ==> steps[i].id != steps[j].id
    ensures Adjacency(steps)[steps[k].id] == steps[k].dependsOn
  {
    if k < |steps| - 1 {
      AdjacencyOfUnique(steps[..|steps| - 1], k);
    }
  }

  lemma WalkTail(g: Graph, w: seq<string>, i: nat)
    requires Walk(g, w) && i <= |w|
    ensures Walk(g, w[i..])
  {
    var t := w[i..];
    forall k | 0 <= k < |t| - 1 ensures Edge(g, t[k], t[k + 1]) {
      assert t[k] == w[i + k] && t[k + 1] == w[i + k + 1];
    }
  }

  lemma WalkExtend(g: Graph, w: seq<string>, v: string)
    requires Walk(g, w) && w != [] && Edge(g, w[|w| - 1], v)
    ensures Walk(g, w + [v])
  {
    var t := w + [v];
    forall k | 0 <= k < |t| - 1 ensures Edge(g, t[k], t[k + 1]) {
      if k < |w| - 1 { assert t[k] == w[k] && t[k + 1] == w[k + 1]; }
    }
  }

  /** Walks stay inside a resolved plan. */
  lemma WalkResolved(plan: Plan, w: seq<string>, i: nat)
    requires DependenciesResolved(plan) && Walk(Adjacency(plan.steps), w)
    requires i < |w| && w[0] in StepIds(plan)
    ensures w[i] in StepIds(plan)
  {
    if i > 0 {
      var g := Adjacency(plan.steps);
      assert Edge(g, w[i - 1], w[i]);
      AdjacencyValues(plan.steps, w[i - 1]);
    }
  }

  /** Every list in the adjacency map is the list of some step with that id. */
  lemma {:induction false} AdjacencyValues(steps: seq<Step>, u: string)
    requires u in Adjacency(steps)
    ensures exists s :: s in steps && s.id == u && s.dependsOn == Adjacency(steps)[u]
  {
    var last := steps[|steps| - 1];
    if last.id == u {
      assert last in steps;
    } else {
      var init := steps[..|steps| - 1];
      AdjacencyValues(init, u);
      var s :| s in init && s.id == u && s.dependsOn == Adjacency(init)[u];
      assert s in steps;
    }
  }
}
