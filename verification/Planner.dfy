/** Reusing a stored plan as a template, and plan generation with retries (youmi/coordinator/planner.py). */
module Planner {
  import opened Common
  import opened WorkflowPlans
  import opened CycleDetection
  import opened ExecutionOrder

  // ---- The skeleton signature ----

  /** Identifier, role and dependencies of a step; the sorted dependency tuple of the source is the multiset of them. */
  datatype Bone = Bone(id: string, role: string, deps: multiset<string>)

  function BoneOf(s: Step): Bone {
    Bone(s.id, s.role, multiset(s.dependsOn))
  }

  /** The sorted tuple of the source, as the multiset it sorts. */
  function Signature(steps: seq<Step>): multiset<Bone> {
    if steps == [] then multiset{} else Signature(steps[..|steps| - 1]) + multiset{BoneOf(steps[|steps| - 1])}
  }

  lemma {:induction false} SignatureSize(steps: seq<Step>)
    ensures |Signature(steps)| == |steps|
  {
    if steps != [] { SignatureSize(steps[..|steps| - 1]); }
  }

  lemma {:induction false} BoneInSignature(steps: seq<Step>, s: Step)
    requires s in steps
    ensures BoneOf(s) in Signature(steps)
  {
    var init, last := steps[..|steps| - 1], steps[|steps| - 1];
    assert steps == init + [last];
    if s != last { BoneInSignature(init, s); }
  }

  lemma {:induction false} StepOfBone(steps: seq<Step>, b: Bone) returns (s: Step)
    requires b in Signature(steps)
    ensures s in steps && BoneOf(s) == b
  {
    var init, last := steps[..|steps| - 1], steps[|steps| - 1];
    assert steps == init + [last];
    if b in Signature(init) { s := StepOfBone(init, b); } else { s := last; }
  }

  /** A step of one plan has a twin in every plan with the same signature. */
  lemma Twin(a: Plan, b: Plan, s: Step) returns (t: Step)
    requires Signature(a.steps) == Signature(b.steps) && s in a.steps
    ensures t in b.steps && t.id == s.id && forall d :: d in t.dependsOn <==> d in s.dependsOn
  {
    BoneInSignature(a.steps, s);
    t := StepOfBone(b.steps, BoneOf(s));
    forall d ensures d in t.dependsOn <==> d in s.dependsOn {
      assert d in t.dependsOn <==> d in multiset(t.dependsOn);
      assert d in s.dependsOn <==> d in multiset(s.dependsOn);
    }
  }

  lemma SignatureIds(a: Plan, b: Plan)
    requires Signature(a.steps) == Signature(b.steps)
    ensures StepIds(a) == StepIds(b) && |a.steps| == |b.steps|
    ensures UniqueIds(a) <==> UniqueIds(b)
  {
    SignatureSize(a.steps);
    SignatureSize(b.steps);
    forall x | x in StepIds(a) ensures x in StepIds(b) {
      var s :| s in a.steps && s.id == x;
      var t := Twin(a, b, s);
    }
    forall x | x in StepIds(b) ensures x in StepIds(a) {
      var s :| s in b.steps && s.id == x;
      var t := Twin(b, a, s);
    }
    DistinctIdCount(a);
    DistinctIdCount(b);
  }

  lemma SignatureDeps(a: Plan, b: Plan, x: string, d: string)
    requires Signature(a.steps) == Signature(b.steps) && UniqueIds(b)
    ensures d in Deps(a, x) ==> d in Deps(b, x)
  {
    if d in Deps(a, x) {
      AdjacencyValues(a.steps, x);
      var s :| s in a.steps && s.id == x && s.dependsOn == Deps(a, x);
      var t := Twin(a, b, s);
      var k :| 0 <= k < |b.steps| && b.steps[k] == t;
      AdjacencyOfUnique(b.steps, k);
    }
  }

  lemma SignatureReferences(a: Plan, b: Plan)
    requires Signature(a.steps) == Signature(b.steps)
    ensures DependenciesResolved(a) ==> DependenciesResolved(b)
    ensures NoSelfDependency(a) ==> NoSelfDependency(b)
  {
    SignatureIds(a, b);
    forall s | s in b.steps
      ensures exists t :: t in a.steps && t.id == s.id && forall d :: d in t.dependsOn <==> d in s.dependsOn
    {
      var t := Twin(b, a, s);
    }
  }

  lemma SignatureAcyclic(a: Plan, b: Plan)
    requires Signature(a.steps) == Signature(b.steps) && UniqueIds(a) && Acyclic(Adjacency(a.steps))
    ensures Acyclic(Adjacency(b.steps))
  {
    var g, h := Adjacency(a.steps), Adjacency(b.steps);
    forall w | ClosedWalk(h, w) ensures false {
      forall i | 0 <= i < |w| - 1 ensures Edge(g, w[i], w[i + 1]) {
        assert Edge(h, w[i], w[i + 1]);
        EdgeIsDependency(b, w[i], w[i + 1]);
        SignatureDeps(b, a, w[i], w[i + 1]);
        EdgeIsDependency(a, w[i], w[i + 1]);
      }
      assert ClosedWalk(g, w);
    }
  }

  /** The signature, although it forgets the order of steps, decides whether a plan is valid. */
  lemma SignatureDecidesValidity(a: Plan, b: Plan)
    requires Signature(a.steps) == Signature(b.steps)
    ensures ValidPlan(a) <==> ValidPlan(b)
  {
    SignatureIds(a, b);
    SignatureReferences(a, b);
    SignatureReferences(b, a);
    if UniqueIds(a) {
      if Acyclic(Adjacency(a.steps)) { SignatureAcyclic(a, b); }
      if Acyclic(Adjacency(b.steps)) { SignatureAcyclic(b, a); }
    }
  }

  lemma SignatureFollows(a: Plan, b: Plan, earlier: seq<seq<string>>, x: string)
    requires Signature(a.steps) == Signature(b.steps) && UniqueIds(a) && UniqueIds(b)
    ensures Follows(a, earlier, x) ==> Follows(b, earlier, x)
  {
    forall d ensures d in Deps(a, x) <==> d in Deps(b, x) {
      SignatureDeps(a, b, x, d);
      SignatureDeps(b, a, x, d);
    }
  }

  /** ... and its execution layers. */
  lemma SignatureDecidesLayering(a: Plan, b: Plan, layers: seq<seq<string>>)
    requires Signature(a.steps) == Signature(b.steps) && UniqueIds(a) && Layering(a, layers)
    ensures Layering(b, layers)
  {
    SignatureIds(a, b);
    forall k, x | 0 <= k < |layers| && x in layers[k] ensures Follows(b, layers[..k], x) {
      SignatureFollows(a, b, layers[..k], x);
    }
    forall x | x in StepIds(b) && x !in Flatten(layers) ensures exists d :: d in Deps(b, x) && d !in Flatten(layers) {
      var d :| d in Deps(a, x) && d !in Flatten(layers);
      SignatureDeps(a, b, x, d);
    }
  }

  // ---- Template adaptation ----

  const TASK_LIMIT: nat := 500

  /** Same plan except for the task texts. */
  ghost predicate SameSkeleton(template: Plan, plan: Plan) {
    && plan.name == template.name && |plan.steps| == |template.steps|
    && forall i :: 0 <= i < |plan.steps| ==> plan.steps[i] == template.steps[i].(task := plan.steps[i].task)
  }

  lemma {:induction false} SameSignature(a: seq<Step>, b: seq<Step>)
    requires |a| == |b| && forall i :: 0 <= i < |b| ==> b[i] == a[i].(task := b[i].task)
    ensures Signature(a) == Signature(b)
  {
    if a != [] { SameSignature(a[..|a| - 1], b[..|b| - 1]); }
  }

  /**
   * What the model answers to one completion request: a plan, or an answer that raises (call failure, no JSON, no
   * plan).
   */
  datatype Reply = Raised | Parsed(plan: Plan)

  /** The text step i gets: the reply's text for that position if there is a nonempty one, else the template's own. */
  function AdaptedTask(template: Step, i: nat, reply: Plan): string {
    if i < |reply.steps| && reply.steps[i].task != "" then Prefix(reply.steps[i].task, TASK_LIMIT)
    else Prefix(template.task, TASK_LIMIT)
  }

  /** The first 500 characters of a text, or all of it. */
  ghost predicate Shortened(text: string, source: string) {
    text <= source && (text == source || |text| == 500) && |text| <= 500
  }

  /** Position by position the reply's text if it has a nonempty one there, otherwise the template's own. */
  ghost predicate TextsFrom(template: Plan, reply: Plan, plan: Plan) {
    && |plan.steps| == |template.steps|
    && forall i :: 0 <= i < |plan.steps| ==>
      if i < |reply.steps| && reply.steps[i].task != "" then Shortened(plan.steps[i].task, reply.steps[i].task)
      else Shortened(plan.steps[i].task, template.steps[i].task)
  }

  /** The first step takes over the user's task, the others keep theirs. */
  ghost predicate FirstTextFrom(template: Plan, userTask: string, plan: Plan) {
    && |plan.steps| == |template.steps|
    && (plan.steps != [] ==> Shortened(plan.steps[0].task, userTask))
    && forall i :: 1 <= i < |plan.steps| ==> plan.steps[i] == template.steps[i]
  }

  /** Whatever plan the model replies, only the task texts of the template change. */
  method ApplyReply(template: Plan, reply: Plan) returns (plan: Plan)
    ensures SameSkeleton(template, plan) && TextsFrom(template, reply, plan)
  {
    var newSteps: seq<Step> := [];
    var i := 0;
    while i < |template.steps|
      invariant i == |newSteps| <= |template.steps|
      invariant forall k :: 0 <= k < i ==>
        newSteps[k] == template.steps[k].(task := AdaptedTask(template.steps[k], k, reply))
    {
      var step := template.steps[i];
      var text := step.task;
      if i < |reply.steps| && reply.steps[i].task != "" { text := reply.steps[i].task; }
      newSteps := newSteps + [step.(task := Prefix(text, TASK_LIMIT))];
      i := i + 1;
    }
    plan := template.(steps := newSteps);
  }

  /** Without a model client the first step takes over the user's task. */
  method ApplyWithoutClient(template: Plan, userTask: string) returns (plan: Plan)
    ensures SameSkeleton(template, plan) && FirstTextFrom(template, userTask, plan)
  {
    var newSteps: seq<Step> := [];
    var i := 0;
    while i < |template.steps|
      invariant i == |newSteps| <= |template.steps|
      invariant i > 0 ==>
        newSteps[0] == template.steps[0].(task := Prefix(userTask, TASK_LIMIT)) && newSteps[1..] == template.steps[1..i]
    {
      var step := template.steps[i];
      newSteps := newSteps + [if i == 0 then step.(task := Prefix(userTask, TASK_LIMIT)) else step];
      i := i + 1;
    }
    plan := template.(steps := newSteps);
    forall k | 0 <= k < |newSteps| ensures newSteps[k] == template.steps[k].(task := newSteps[k].task) {
      if k > 0 { assert newSteps[k] == newSteps[1..][k - 1]; }
    }
    forall k | 1 <= k < |newSteps| ensures newSteps[k] == template.steps[k] {
      assert newSteps[k] == newSteps[1..][k - 1];
    }
  }

  /** Adaptation keeps the signature, hence validity and layers, and the execution order list for list. */
  lemma AdaptationKeepsStructure(template: Plan, plan: Plan)
    requires SameSkeleton(template, plan)
    ensures Signature(plan.steps) == Signature(template.steps)
    ensures ValidPlan(plan) <==> ValidPlan(template)
    ensures UniqueIds(template) ==> forall layers :: Layering(template, layers) <==> Layering(plan, layers)
    ensures OrderOf(plan.steps) == OrderOf(template.steps)
  {
    SameOrder(plan.steps, template.steps);
    SameSignature(template.steps, plan.steps);
    SignatureDecidesValidity(template, plan);
    if UniqueIds(template) {
      SignatureIds(template, plan);
      forall layers ensures Layering(template, layers) <==> Layering(plan, layers) {
        if Layering(template, layers) { SignatureDecidesLayering(template, plan, layers); }
        if Layering(plan, layers) { SignatureDecidesLayering(plan, template, layers); }
      }
    }
  }

  // ---- Generating a plan ----

  datatype Planned =
    | FromMemory(plan: Plan, skeleton: multiset<Bone>)
    | FromModel(plan: Plan)

  datatype PlanFailure = NoClient | Exhausted

  /** The number of full generations that are tried. */
  function Attempts(maxRetries: int): (n: nat)
    ensures n == maxRetries + 1 || (n == 0 && maxRetries < 0)
  {
    if maxRetries < 0 then 0 else maxRetries + 1
  }

  ghost predicate Acceptable(reply: Reply) {
    reply.Parsed? && ValidPlan(reply.plan)
  }

  /** The retry loop; the model's answers are numbered by completion request, starting at first. */
  method PlanFromModel(client: nat -> Reply, first: nat, maxRetries: int)
    returns (result: Result<Plan, PlanFailure>, calls: nat)
    ensures first <= calls <= first + Attempts(maxRetries)
    ensures result.Ok? ==> calls > first && client(calls - 1) == Parsed(result.value) && ValidPlan(result.value)
    ensures result.Ok? ==> forall k :: first <= k < calls - 1 ==> !Acceptable(client(k))
    ensures result.Err? ==> result.error == Exhausted && calls == first + Attempts(maxRetries)
    ensures result.Err? ==> forall k :: first <= k < calls ==> !Acceptable(client(k))
  {
    calls := first;
    var attempt := 0;
    while attempt < maxRetries + 1
      invariant 0 <= attempt <= Attempts(maxRetries) && calls == first + attempt
      invariant forall k :: first <= k < calls ==> !Acceptable(client(k))
    {
      var reply := client(calls);
      calls := calls + 1;
      if reply.Parsed? {
        var errors := Validate(reply.plan);
        if errors == [] { return Ok(reply.plan), calls; }
      }
      attempt := attempt + 1;
    }
    result := Err(Exhausted);
  }

  /** The template can be used: it is valid and, with a client, the one adaptation request is answered by a plan. */
  ghost predicate TemplateServes(memory: Option<Plan>, client: Option<nat -> Reply>) {
    memory.Some? && ValidPlan(memory.value) && (client.Some? ==> client.value(0).Parsed?)
  }

  /** The texts come from the answer to the adaptation request, or without a client from the user. */
  ghost predicate AdaptedFrom(userTask: string, template: Plan, client: Option<nat -> Reply>, plan: Plan) {
    match client
    case None => FirstTextFrom(template, userTask, plan)
    case Some(answers) => answers(0).Parsed? && TextsFrom(template, answers(0).plan, plan)
  }

  /** Requests spent on adaptation. */
  function AdaptationCalls(memory: Option<Plan>, client: Option<nat -> Reply>): (n: nat)
    ensures n <= 1 && (n == 1 <==> memory.Some? && client.Some?)
  {
    if memory.Some? && client.Some? then 1 else 0
  }

  /**
   * Plan generation: the best stored plan is adapted if there is one, otherwise or if that fails the model plans
   * afresh.
   */
  method GeneratePlan(userTask: string, memory: Option<Plan>, client: Option<nat -> Reply>, maxRetries: int)
    returns (result: Result<Planned, PlanFailure>, calls: nat)
    ensures result.Ok? ==> ValidPlan(result.value.plan)
    ensures (result.Ok? && result.value.FromMemory?) <==> TemplateServes(memory, client)
    ensures TemplateServes(memory, client) ==> SameSkeleton(memory.value, result.value.plan)
    ensures TemplateServes(memory, client) ==> OrderOf(result.value.plan.steps) == OrderOf(memory.value.steps)
    ensures TemplateServes(memory, client) ==> AdaptedFrom(userTask, memory.value, client, result.value.plan)
    ensures TemplateServes(memory, client) ==>
      result.value.skeleton == Signature(result.value.plan.steps) && calls == AdaptationCalls(memory, client)
    ensures calls <= AdaptationCalls(memory, client) + if client.Some? then Attempts(maxRetries) else 0
    ensures result == Err(NoClient) <==> client.None? && !TemplateServes(memory, client)
    ensures (result.Ok? && result.value.FromModel?) ==>
      && client.Some? && calls > AdaptationCalls(memory, client) && client.value(calls - 1) == Parsed(result.value.plan)
      && forall k :: AdaptationCalls(memory, client) <= k < calls - 1 ==> !Acceptable(client.value(k))
    ensures result == Err(Exhausted) ==>
      client.Some? && calls == AdaptationCalls(memory, client) + Attempts(maxRetries)
      && forall k :: AdaptationCalls(memory, client) <= k < calls ==> !Acceptable(client.value(k))
  {
    calls := 0;
    if memory.Some? {
      var adapted, n := PlanFromTemplate(userTask, memory.value, client);
      calls := n;
      if adapted.Some? {
        SameOrder(adapted.value.steps, memory.value.steps);
        return Ok(FromMemory(adapted.value, Signature(memory.value.steps))), calls;
      }
    }
    if client.None? { return Err(NoClient), calls; }
    var planned, n := PlanFromModel(client.value, calls, maxRetries);
    calls := n;
    result := if planned.Ok? then Ok(FromModel(planned.value)) else Err(planned.error);
  }

  /** The fast path: one adaptation request at most, and a plan exactly when the template serves. */
  method PlanFromTemplate(userTask: string, template: Plan, client: Option<nat -> Reply>)
    returns (plan: Option<Plan>, calls: nat)
    ensures calls == AdaptationCalls(Some(template), client)
    ensures plan.Some? <==> TemplateServes(Some(template), client)
    ensures plan.Some? ==>
      && SameSkeleton(template, plan.value) && ValidPlan(plan.value)
      && Signature(plan.value.steps) == Signature(template.steps) && AdaptedFrom(userTask, template, client, plan.value)
  {
    calls := 0;
    var adapted: Plan;
    if client.None? {
      adapted := ApplyWithoutClient(template, userTask);
    } else {
      var reply := client.value(calls);
      calls := calls + 1;
      if reply.Raised? { return None, calls; }
      adapted := ApplyReply(template, reply.plan);
    }
    AdaptationKeepsStructure(template, adapted);
    var errors := Validate(adapted);
    plan := if errors == [] then Some(adapted) else None;
  }
}
