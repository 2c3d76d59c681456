/**
 * Step execution with retries, skip propagation and layer concurrency (WorkflowExecutor in youmi/coordinator/plan.py).
 */
module Execution {
  import opened Common
  import opened WorkflowPlans
  import opened CycleDetection
  import opened ExecutionOrder

  datatype TaskResult = TaskResult(success: bool, error: Option<string>, output: string)

  /** What one attempt of a step can do: the agent returns, runs out of time, or an exception escapes. */
  datatype Outcome = Returned(result: TaskResult) | TimedOut | Raised(message: string)

  datatype Status = Pending | Running | Completed | Failed | Skipped

  datatype StepError =
    | Message(text: string)
    | Timeout
    | MissingStep(dep: string)
    | DependencyFailed(dep: string, cause: Option<StepError>)

  datatype StepResult = StepResult(status: Status, taskResult: Option<TaskResult>, error: Option<StepError>)

  const FRESH := StepResult(Pending, None, None)

  /** The oracle fixes the outcome of every attempt of every step. */
  datatype Config = Config(plan: Plan, parallel: bool, failFast: bool, oracle: (string, nat) -> Outcome)

  type Results = map<string, StepResult>

  function GetStep(steps: seq<Step>, id: string): (s: Option<Step>)
    ensures s.Some? ==> s.value in steps && s.value.id == id
    ensures s.None? ==> forall t :: t in steps ==> t.id != id
  {
    if steps == [] then None else if steps[0].id == id then Some(steps[0]) else GetStep(steps[1..], id)
  }

  // ---- One step ----

  datatype Check = Proceed | Skip(error: StepError)

  function DependencyCheck(deps: seq<string>, results: Results, failFast: bool): Check {
    if deps == [] then Proceed
    else if deps[0] !in results then Skip(MissingStep(deps[0]))
    else if failFast && results[deps[0]].status in {Failed, Skipped} then
      Skip(DependencyFailed(deps[0], results[deps[0]].error))
    else DependencyCheck(deps[1..], results, failFast)
  }

  function AsError(e: Option<string>): Option<StepError> {
    if e.Some? then Some(Message(e.value)) else None
  }

  /** The record after an attempt that ended with o. */
  function AfterAttempt(r: StepResult, o: Outcome): StepResult {
    match o
    case Returned(t) => StepResult(if t.success then Completed else Failed, Some(t), AsError(t.error))
    case _ => r
  }

  function AttemptError(o: Outcome): Option<StepError> {
    match o
    case Returned(t) => AsError(t.error)
    case TimedOut => Some(Timeout)
    case Raised(m) => Some(Message(m))
  }

  predicate Succeeds(o: Outcome) {
    o.Returned? && o.result.success
  }

  /** The retry loop from a given attempt on. */
  function RunAttempts(s: Step, oracle: (string, nat) -> Outcome, attempt: nat, r: StepResult,
                       lastError: Option<StepError>): StepResult
    decreases s.retryCount + 1 - attempt
  {
    if attempt >= s.retryCount + 1 then StepResult(Failed, r.taskResult, lastError)
    else
      var o := oracle(s.id, attempt);
      if Succeeds(o) then AfterAttempt(r, o)
      else RunAttempts(s, oracle, attempt + 1, AfterAttempt(r, o), AttemptError(o))
  }

  /** The record a step ends with, given the records of its dependencies. */
  function StepOutcome(c: Config, s: Step, results: Results): StepResult {
    match DependencyCheck(s.dependsOn, results, c.failFast)
    case Skip(e) => StepResult(Skipped, None, Some(e))
    case Proceed => RunAttempts(s, c.oracle, 0, StepResult(Running, None, None), None)
  }

  ghost predicate FirstSuccess(s: Step, oracle: (string, nat) -> Outcome, k: nat, a: nat) {
    && k <= a <= s.retryCount && Succeeds(oracle(s.id, a))
    && forall b: nat :: k <= b < a ==> !Succeeds(oracle(s.id, b))
  }

  /** A step completes exactly when one of its retryCount + 1 attempts succeeds; the first success is kept. */
  lemma {:induction false} RetryMeaning(s: Step, oracle: (string, nat) -> Outcome, k: nat, r: StepResult,
                                        e: Option<StepError>)
    ensures var f := RunAttempts(s, oracle, k, r, e);
      && f.status in {Completed, Failed}
      && (f.status == Completed <==> exists a: nat :: k <= a <= s.retryCount && Succeeds(oracle(s.id, a)))
      && (forall a: nat :: FirstSuccess(s, oracle, k, a) ==> f.taskResult == Some(oracle(s.id, a).result))
      && (f.status == Failed ==> f.error == if s.retryCount < k then e else AttemptError(oracle(s.id, s.retryCount)))
    decreases s.retryCount + 1 - k
  {
    if k <= s.retryCount {
      var o := oracle(s.id, k);
      if !Succeeds(o) {
        RetryMeaning(s, oracle, k + 1, AfterAttempt(r, o), AttemptError(o));
      }
    }
  }

  lemma {:induction false} CheckFrame(deps: seq<string>, a: Results, b: Results, failFast: bool)
    requires forall d :: d in deps ==> (d in a <==> d in b) && (d in a ==> a[d] == b[d])
    ensures DependencyCheck(deps, a, failFast) == DependencyCheck(deps, b, failFast)
  {
    if deps != [] { CheckFrame(deps[1..], a, b, failFast); }
  }

  lemma {:induction false} CheckMeaning(deps: seq<string>, results: Results, failFast: bool)
    requires forall d :: d in deps ==> d in results
    ensures DependencyCheck(deps, results, failFast).Skip? <==>
      failFast && exists d :: d in deps && results[d].status in {Failed, Skipped}
  {
    if deps != [] { CheckMeaning(deps[1..], results, failFast); }
  }

  // ---- Interleaved steps ----

  /** Where the coroutine of a step stands between two awaits. */
  datatype Progress = NotStarted | Attempting(attempt: nat, lastError: Option<StepError>) | Done

  datatype Run = Run(results: Results, progress: map<string, Progress>)

  /** One stretch of _execute_step between two awaits. */
  function Advance(c: Config, s: Step, run: Run): Run
    requires s.id in run.results && s.id in run.progress
  {
    var r := run.results[s.id];
    match run.progress[s.id]
    case NotStarted =>
      (match DependencyCheck(s.dependsOn, run.results, c.failFast)
       case Skip(e) => Move(run, s.id, StepResult(Skipped, r.taskResult, Some(e)), Done)
       case Proceed => Move(run, s.id, r.(status := Running), Attempting(0, None)))
    case Attempting(k, e) =>
      if k >= s.retryCount + 1 then Move(run, s.id, StepResult(Failed, r.taskResult, e), Done)
      else
        var o := c.oracle(s.id, k);
        Move(run, s.id, AfterAttempt(r, o), if Succeeds(o) then Done else Attempting(k + 1, AttemptError(o)))
    case Done => run
  }

  function Move(run: Run, id: string, r: StepResult, p: Progress): Run {
    Run(run.results[id := r], run.progress[id := p])
  }

  /** A step that is under way will end with the record its dependencies call for. */
  ghost predicate OnTrack(c: Config, s: Step, run: Run)
    requires s.id in run.results && s.id in run.progress
  {
    match run.progress[s.id]
    case NotStarted => run.results[s.id] == FRESH
    case Attempting(k, e) =>
      && DependencyCheck(s.dependsOn, run.results, c.failFast) == Proceed
      && RunAttempts(s, c.oracle, k, run.results[s.id], e) == StepOutcome(c, s, run.results)
    case Done => run.results[s.id] == StepOutcome(c, s, run.results)
  }

  ghost predicate DependenciesDone(s: Step, run: Run) {
    forall d :: d in s.dependsOn ==> d in run.progress && run.progress[d] == Done
  }

  ghost predicate Consistent(c: Config, run: Run) {
    && run.results.Keys == StepIds(c.plan) && run.progress.Keys == StepIds(c.plan)
    && forall s :: s in c.plan.steps ==>
      OnTrack(c, s, run) && (run.progress[s.id] != NotStarted ==> DependenciesDone(s, run))
  }

  lemma SameIdSameStep(plan: Plan, s: Step, t: Step)
    requires UniqueIds(plan) && s in plan.steps && t in plan.steps && s.id == t.id
    ensures s == t
  {
    var i :| 0 <= i < |plan.steps| && plan.steps[i] == s;
    var j :| 0 <= j < |plan.steps| && plan.steps[j] == t;
  }

  lemma OutcomeFrame(c: Config, s: Step, a: Results, b: Results)
    requires forall d :: d in s.dependsOn ==> (d in a <==> d in b) && (d in a ==> a[d] == b[d])
    ensures StepOutcome(c, s, a) == StepOutcome(c, s, b)
    ensures DependencyCheck(s.dependsOn, a, c.failFast) == DependencyCheck(s.dependsOn, b, c.failFast)
  {
    CheckFrame(s.dependsOn, a, b, c.failFast);
  }

  lemma AdvanceOwn(c: Config, s: Step, run: Run)
    requires s.id in run.results && s.id in run.progress && run.progress[s.id] != Done
    requires OnTrack(c, s, run) && s.id !in s.dependsOn
    ensures OnTrack(c, s, Advance(c, s, run))
  {
    OutcomeFrame(c, s, run.results, Advance(c, s, run).results);
  }

  lemma AdvanceOther(c: Config, s: Step, t: Step, run: Run)
    requires s.id in run.results && s.id in run.progress && t.id in run.results && t.id in run.progress
    requires s.id != t.id && OnTrack(c, t, run)
    requires run.progress[t.id] != NotStarted ==> s.id !in t.dependsOn
    ensures OnTrack(c, t, Advance(c, s, run))
  {
    if run.progress[t.id] != NotStarted {
      OutcomeFrame(c, t, run.results, Advance(c, s, run).results);
    }
  }

  /** Whatever step with finished dependencies moves next, every step stays on track. */
  lemma AdvanceKeepsConsistent(c: Config, s: Step, run: Run)
    requires UniqueIds(c.plan) && NoSelfDependency(c.plan) && s in c.plan.steps
    requires Consistent(c, run) && DependenciesDone(s, run) && run.progress[s.id] != Done
    ensures Consistent(c, Advance(c, s, run))
  {
    var next := Advance(c, s, run);
    assert next.progress.Keys == run.progress.Keys && next.results.Keys == run.results.Keys;
    forall t | t in c.plan.steps
      ensures OnTrack(c, t, next)
      ensures next.progress[t.id] != NotStarted ==> DependenciesDone(t, next)
    {
      AdvanceTracks(c, s, t, run, next);
      AdvanceKeepsReady(c, s, t, run, next);
    }
  }

  lemma AdvanceKeepsReady(c: Config, s: Step, t: Step, run: Run, next: Run)
    requires UniqueIds(c.plan) && s in c.plan.steps && t in c.plan.steps
    requires s.id in run.results && s.id in run.progress && t.id in run.progress && next == Advance(c, s, run)
    requires DependenciesDone(s, run) && (run.progress[t.id] != NotStarted ==> DependenciesDone(t, run))
    ensures next.progress[t.id] != NotStarted ==> DependenciesDone(t, next)
  {
    if t.id == s.id { SameIdSameStep(c.plan, s, t); }
  }

  lemma AdvanceTracks(c: Config, s: Step, t: Step, run: Run, next: Run)
    requires UniqueIds(c.plan) && NoSelfDependency(c.plan) && s in c.plan.steps && t in c.plan.steps
    requires Consistent(c, run) && DependenciesDone(s, run) && run.progress[s.id] != Done && next == Advance(c, s, run)
    ensures OnTrack(c, t, next)
  {
    if t.id == s.id {
      SameIdSameStep(c.plan, s, t);
      AdvanceOwn(c, s, run);
    } else {
      AdvanceOther(c, s, t, run);
    }
  }

  function Rank(s: Step, p: Progress): nat {
    var attempts := if s.retryCount < 0 then 0 else s.retryCount + 1;
    match p
    case NotStarted => attempts + 2
    case Attempting(k, _) => if k <= attempts then attempts - k + 1 else 1
    case Done => 0
  }

  function TotalRank(steps: seq<Step>, progress: map<string, Progress>): nat
    requires forall s :: s in steps ==> s.id in progress
  {
    if steps == [] then 0
    else
      var last := steps[|steps| - 1];
      TotalRank(steps[..|steps| - 1], progress) + Rank(last, progress[last.id])
  }

  lemma {:induction false} TotalRankFrame(steps: seq<Step>, p: map<string, Progress>, id: string, v: Progress)
    requires forall s :: s in steps ==> s.id in p
    requires forall s :: s in steps && s.id == id ==> Rank(s, v) < Rank(s, p[id])
    ensures TotalRank(steps, p[id := v]) <= TotalRank(steps, p)
    ensures (exists s :: s in steps && s.id == id) ==> TotalRank(steps, p[id := v]) < TotalRank(steps, p)
  {
    if steps != [] {
      var init, last := steps[..|steps| - 1], steps[|steps| - 1];
      assert steps == init + [last];
      TotalRankFrame(init, p, id, v);
    }
  }

  /** Every move of an unfinished step uses up rank: no schedule can go on for ever. */
  lemma AdvanceDecreases(c: Config, s: Step, run: Run)
    requires UniqueIds(c.plan) && s in c.plan.steps && Consistent(c, run) && run.progress[s.id] != Done
    ensures Advance(c, s, run).progress.Keys == run.progress.Keys
    ensures TotalRank(c.plan.steps, Advance(c, s, run).progress) < TotalRank(c.plan.steps, run.progress)
  {
    var v := Advance(c, s, run).progress[s.id];
    OwnRankFalls(c, s, run, v);
    forall t | t in c.plan.steps && t.id == s.id ensures Rank(t, v) < Rank(t, run.progress[s.id]) {
      SameIdSameStep(c.plan, s, t);
    }
    TotalRankFrame(c.plan.steps, run.progress, s.id, v);
  }

  lemma OwnRankFalls(c: Config, s: Step, run: Run, v: Progress)
    requires s.id in run.results && s.id in run.progress && run.progress[s.id] != Done
    requires v == Advance(c, s, run).progress[s.id]
    ensures Advance(c, s, run).progress == run.progress[s.id := v] && Rank(s, v) < Rank(s, run.progress[s.id])
  {
  }

  /** A step only starts once its dependencies have ended, and with failFast only if all of them completed. */
  lemma StartsAfterDependencies(c: Config, s: Step, run: Run, d: string)
    requires ValidPlan(c.plan) && Consistent(c, run) && s in c.plan.steps && d in s.dependsOn
    requires DependenciesDone(s, run) && run.progress[s.id] == NotStarted
    requires Advance(c, s, run).progress[s.id].Attempting?
    ensures run.progress[d] == Done && run.results[d].status in {Completed, Failed, Skipped}
    ensures c.failFast ==> run.results[d].status == Completed
  {
    var t :| t in c.plan.steps && t.id == d;
    assert OnTrack(c, t, run);
    OutcomeTerminal(c, t, run.results);
    CheckMeaning(s.dependsOn, run.results, c.failFast);
  }

  lemma OutcomeTerminal(c: Config, s: Step, results: Results)
    ensures StepOutcome(c, s, results).status in {Completed, Failed, Skipped}
  {
    RetryMeaning(s, c.oracle, 0, StepResult(Running, None, None), None);
  }

  // ---- Final results ----

  /** Every step has the record that its own attempts and its dependencies' records call for. */
  ghost predicate Solution(c: Config, r: Results) {
    && r.Keys == StepIds(c.plan)
    && forall s :: s in c.plan.steps ==> r[s.id] == StepOutcome(c, s, r)
  }

  lemma StepDeps(plan: Plan, s: Step)
    requires UniqueIds(plan) && s in plan.steps
    ensures Deps(plan, s.id) == s.dependsOn
  {
    var i :| 0 <= i < |plan.steps| && plan.steps[i] == s;
    AdjacencyOfUnique(plan.steps, i);
  }

  /** A valid plan has one solution, so neither the mode nor the schedule can influence the results. */
  lemma {:induction false} SolutionUniqueUpTo(c: Config, layers: seq<seq<string>>, k: nat, a: Results, b: Results)
    requires ValidPlan(c.plan) && Layering(c.plan, layers) && k <= |layers|
    requires Solution(c, a) && Solution(c, b)
    ensures forall x :: x in Flatten(layers[..k]) ==> x in a && x in b && a[x] == b[x]
  {
    if k > 0 {
      SolutionUniqueUpTo(c, layers, k - 1, a, b);
      assert layers[..k][..k - 1] == layers[..k - 1];
      forall x | x in layers[k - 1] ensures x in a && x in b && a[x] == b[x] {
        FlattenMember(layers, x);
        var s :| s in c.plan.steps && s.id == x;
        StepDeps(c.plan, s);
        assert Follows(c.plan, layers[..k - 1], x);
        OutcomeFrame(c, s, a, b);
      }
    }
  }

  lemma SolutionUnique(c: Config, layers: seq<seq<string>>, a: Results, b: Results)
    requires ValidPlan(c.plan) && Layering(c.plan, layers) && Solution(c, a) && Solution(c, b)
    ensures a == b
  {
    AllLaidOutIffAcyclic(c.plan, layers);
    SolutionUniqueUpTo(c, layers, |layers|, a, b);
    assert layers[..|layers|] == layers;
    SameRecords(StepIds(c.plan), Flatten(layers), a, b);
  }

  lemma SameRecords(ids: set<string>, all: seq<string>, a: Results, b: Results)
    requires a.Keys == ids && b.Keys == ids && forall x :: x in ids ==> x in all
    requires forall x :: x in all ==> x in a && x in b && a[x] == b[x]
    ensures a == b
  {
  }

  /** Solutions do not mention the mode. */
  lemma SolutionIgnoresMode(c: Config, r: Results)
    ensures Solution(c, r) <==> Solution(c.(parallel := !c.parallel), r)
  {
    var c' := c.(parallel := !c.parallel);
    assert forall s :: StepOutcome(c, s, r) == StepOutcome(c', s, r);
  }

  /** A failed step lies strictly below x in the dependency graph. */
  ghost predicate FailedAncestor(c: Config, r: Results, x: string) {
    exists w :: FailedAncestorVia(c, r, x, w)
  }

  ghost predicate FailedAncestorVia(c: Config, r: Results, x: string, w: seq<string>) {
    && |w| >= 2 && w[0] == x && Walk(Adjacency(c.plan.steps), w)
    && w[|w| - 1] in r && r[w[|w| - 1]].status == Failed
  }

  /** With failFast exactly the steps with a failed proper ancestor are skipped; without it none are. */
  lemma {:induction false} SkippedIffFailedAncestor(c: Config, layers: seq<seq<string>>, k: nat, x: string, r: Results)
    requires ValidPlan(c.plan) && Layering(c.plan, layers) && Solution(c, r)
    requires k < |layers| && x in layers[k]
    ensures x in r && (r[x].status == Skipped <==> c.failFast && FailedAncestor(c, r, x))
    decreases k
  {
    FlattenMember(layers, x);
    var s :| s in c.plan.steps && s.id == x;
    StepDeps(c.plan, s);
    forall d | d in s.dependsOn
      ensures d in r && (r[d].status == Skipped <==> c.failFast && FailedAncestor(c, r, d))
    {
      var j := DependencyLayer(c.plan, layers, k, x, d);
      SkippedIffFailedAncestor(c, layers, j, d, r);
    }
    CheckMeaning(s.dependsOn, r, c.failFast);
    RetryMeaning(s, c.oracle, 0, StepResult(Running, None, None), None);
    FailedAncestorStep(c, r, s);
  }

  /** A failed ancestor is a failed dependency or an ancestor of a dependency. */
  lemma FailedAncestorStep(c: Config, r: Results, s: Step)
    requires Deps(c.plan, s.id) == s.dependsOn && forall d :: d in s.dependsOn ==> d in r
    ensures FailedAncestor(c, r, s.id) <==>
      exists d :: d in s.dependsOn && (r[d].status == Failed || FailedAncestor(c, r, d))
  {
    var g := Adjacency(c.plan.steps);
    forall w | FailedAncestorVia(c, r, s.id, w)
      ensures exists d :: d in s.dependsOn && (r[d].status == Failed || FailedAncestor(c, r, d))
    {
      assert Edge(g, w[0], w[1]);
      assert w[1] in s.dependsOn;
      if |w| > 2 {
        WalkTail(g, w, 1);
        assert FailedAncestorVia(c, r, w[1], w[1..]);
      }
    }
    forall d | d in s.dependsOn && (r[d].status == Failed || FailedAncestor(c, r, d))
      ensures FailedAncestor(c, r, s.id)
    {
      assert Edge(g, s.id, d);
      if r[d].status == Failed {
        assert FailedAncestorVia(c, r, s.id, [s.id, d]);
      } else {
        var w :| FailedAncestorVia(c, r, d, w);
        WalkPrepend(g, s.id, w);
        assert FailedAncestorVia(c, r, s.id, [s.id] + w);
      }
    }
  }

  lemma WalkPrepend(g: Graph, x: string, w: seq<string>)
    requires w != [] && Walk(g, w) && Edge(g, x, w[0])
    ensures Walk(g, [x] + w)
  {
    var t := [x] + w;
    forall k | 0 <= k < |t| - 1 ensures Edge(g, t[k], t[k + 1]) {
      if k > 0 { assert t[k] == w[k - 1] && t[k + 1] == w[k]; }
    }
  }

  /** The outcome of a valid plan: everything terminal, skips exactly below failures. */
  lemma OutcomeOfPlan(c: Config, layers: seq<seq<string>>, r: Results, x: string)
    requires ValidPlan(c.plan) && Layering(c.plan, layers) && Solution(c, r) && x in StepIds(c.plan)
    ensures r[x].status in {Completed, Failed, Skipped}
    ensures r[x].status == Skipped <==> c.failFast && FailedAncestor(c, r, x)
  {
    AllLaidOutIffAcyclic(c.plan, layers);
    FlattenMember(layers, x);
    var k :| 0 <= k < |layers| && x in layers[k];
    SkippedIffFailedAncestor(c, layers, k, x, r);
    var s :| s in c.plan.steps && s.id == x;
    OutcomeTerminal(c, s, r);
  }

  // ---- Whole runs under an arbitrary scheduler ----

  datatype State = State(layer: nat, run: Run)

  predicate LayerDone(layer: seq<string>, run: Run) {
    forall x :: x in layer ==> x in run.progress && run.progress[x] == Done
  }

  /** In a layer that runs serially only the first unfinished step may move. */
  predicate MayMove(c: Config, layer: seq<string>, run: Run, i: nat)
    requires i < |layer|
  {
    (c.parallel && |layer| > 1) || LayerDone(layer[..i], run)
  }

  ghost predicate StepsTo(c: Config, layers: seq<seq<string>>, a: State, s: Step, i: nat, b: State) {
    && a.layer < |layers| && i < |layers[a.layer]| && s in c.plan.steps && s.id == layers[a.layer][i]
    && s.id in a.run.results && s.id in a.run.progress && a.run.progress[s.id] != Done
    && MayMove(c, layers[a.layer], a.run, i)
    && b == State(a.layer, Advance(c, s, a.run))
  }

  ghost predicate NextLayer(layers: seq<seq<string>>, a: State, b: State) {
    && a.layer < |layers| && LayerDone(layers[a.layer], a.run)
    && b == State(a.layer + 1, a.run)
  }

  ghost predicate Next(c: Config, layers: seq<seq<string>>, a: State, b: State) {
    NextLayer(layers, a, b) || exists s, i :: StepsTo(c, layers, a, s, i, b)
  }

  function InitialRun(plan: Plan): Run {
    Run(map x | x in StepIds(plan) :: FRESH, map x | x in StepIds(plan) :: NotStarted)
  }

  ghost predicate IsRun(c: Config, layers: seq<seq<string>>, trace: seq<State>) {
    && trace != [] && trace[0] == State(0, InitialRun(c.plan))
    && forall i :: 0 <= i < |trace| - 1 ==> Next(c, layers, trace[i], trace[i + 1])
  }

  ghost predicate StateInv(c: Config, layers: seq<seq<string>>, a: State) {
    && a.layer <= |layers| && Consistent(c, a.run)
    && forall x :: x in Flatten(layers[..a.layer]) ==> x in a.run.progress && a.run.progress[x] == Done
  }

  lemma LayerReady(c: Config, layers: seq<seq<string>>, a: State, s: Step)
    requires ValidPlan(c.plan) && Layering(c.plan, layers) && StateInv(c, layers, a)
    requires a.layer < |layers| && s in c.plan.steps && s.id in layers[a.layer]
    ensures DependenciesDone(s, a.run)
  {
    StepDeps(c.plan, s);
    assert Follows(c.plan, layers[..a.layer], s.id);
  }

  lemma StepKeepsInv(c: Config, layers: seq<seq<string>>, a: State, b: State)
    requires ValidPlan(c.plan) && Layering(c.plan, layers) && StateInv(c, layers, a) && Next(c, layers, a, b)
    ensures StateInv(c, layers, b)
  {
    if NextLayer(layers, a, b) {
      LayerKeepsInv(c, layers, a, b);
    } else {
      var s, i :| StepsTo(c, layers, a, s, i, b);
      MoveKeepsInv(c, layers, a, s, i, b);
    }
  }

  lemma LayerKeepsInv(c: Config, layers: seq<seq<string>>, a: State, b: State)
    requires StateInv(c, layers, a) && NextLayer(layers, a, b)
    ensures StateInv(c, layers, b)
  {
    assert layers[..b.layer][..a.layer] == layers[..a.layer];
  }

  lemma MoveKeepsInv(c: Config, layers: seq<seq<string>>, a: State, s: Step, i: nat, b: State)
    requires ValidPlan(c.plan) && Layering(c.plan, layers) && StateInv(c, layers, a)
    requires StepsTo(c, layers, a, s, i, b)
    ensures StateInv(c, layers, b)
  {
    LayerReady(c, layers, a, s);
    AdvanceKeepsConsistent(c, s, a.run);
    AdvanceKeepsDone(c, s, a.run);
  }

  lemma AdvanceKeepsDone(c: Config, s: Step, run: Run)
    requires s.id in run.results && s.id in run.progress && run.progress[s.id] != Done
    ensures forall x :: x in run.progress && run.progress[x] == Done ==>
      x in Advance(c, s, run).progress && Advance(c, s, run).progress[x] == Done
  {
  }

  lemma InitialConsistent(c: Config, layers: seq<seq<string>>)
    ensures StateInv(c, layers, State(0, InitialRun(c.plan)))
  {
    assert layers[..0] == [];
  }

  lemma {:induction false} RunInv(c: Config, layers: seq<seq<string>>, trace: seq<State>, k: nat)
    requires ValidPlan(c.plan) && Layering(c.plan, layers) && IsRun(c, layers, trace) && k < |trace|
    ensures StateInv(c, layers, trace[k])
  {
    if k == 0 {
      InitialConsistent(c, layers);
    } else {
      var before := k - 1;
      RunInv(c, layers, trace, before);
      RunMoves(c, layers, trace, before, k);
      StepKeepsInv(c, layers, trace[before], trace[k]);
    }
  }

  lemma RunMoves(c: Config, layers: seq<seq<string>>, trace: seq<State>, i: nat, next: nat)
    requires IsRun(c, layers, trace) && next == i + 1 < |trace|
    ensures Next(c, layers, trace[i], trace[next])
  {
  }

  lemma FinishedIsSolution(c: Config, layers: seq<seq<string>>, run: Run)
    requires ValidPlan(c.plan) && Layering(c.plan, layers) && StateInv(c, layers, State(|layers|, run))
    ensures Solution(c, run.results)
  {
    AllLaidOutIffAcyclic(c.plan, layers);
    assert layers[..|layers|] == layers;
    forall s | s in c.plan.steps ensures run.results[s.id] == StepOutcome(c, s, run.results) {
      assert OnTrack(c, s, run) && s.id in StepIds(c.plan);
    }
  }

  /** Confluence: any two complete runs, serial or parallel and under any schedules, end with the same results. */
  lemma RunsAgree(c: Config, d: Config, layers: seq<seq<string>>, t: seq<State>, u: seq<State>)
    requires ValidPlan(c.plan) && Layering(c.plan, layers)
    requires d == c || d == c.(parallel := !c.parallel)
    requires IsRun(c, layers, t) && IsRun(d, layers, u)
    requires t[|t| - 1].layer == |layers| && u[|u| - 1].layer == |layers|
    ensures t[|t| - 1].run.results == u[|u| - 1].run.results
    ensures Solution(c, t[|t| - 1].run.results)
  {
    RunInv(c, layers, t, |t| - 1);
    RunInv(d, layers, u, |u| - 1);
    FinishedIsSolution(c, layers, t[|t| - 1].run);
    FinishedIsSolution(d, layers, u[|u| - 1].run);
    SolutionIgnoresMode(c, u[|u| - 1].run.results);
    SolutionUnique(c, layers, t[|t| - 1].run.results, u[|u| - 1].run.results);
  }

  lemma {:induction false} FirstUnfinished(layer: seq<string>, run: Run) returns (i: nat)
    requires !LayerDone(layer, run)
    ensures i < |layer| && LayerDone(layer[..i], run) && (layer[i] in run.progress ==> run.progress[layer[i]] != Done)
  {
    var init := layer[..|layer| - 1];
    if LayerDone(init, run) {
      i := |layer| - 1;
      assert layer == init + [layer[i]];
    } else {
      i := FirstUnfinished(init, run);
      assert init[..i] == layer[..i];
    }
  }

  /** No deadlock: while layers remain, some move is possible. */
  lemma SomeMoveEnabled(c: Config, layers: seq<seq<string>>, a: State) returns (b: State)
    requires ValidPlan(c.plan) && Layering(c.plan, layers) && StateInv(c, layers, a) && a.layer < |layers|
    ensures Next(c, layers, a, b)
  {
    var layer := layers[a.layer];
    if LayerDone(layer, a.run) {
      b := State(a.layer + 1, a.run);
    } else {
      var i := FirstUnfinished(layer, a.run);
      FlattenMember(layers, layer[i]);
      var s :| s in c.plan.steps && s.id == layer[i];
      b := State(a.layer, Advance(c, s, a.run));
      assert StepsTo(c, layers, a, s, i, b);
    }
  }

  /** The states left to visit are bounded, so every run can be completed and none is infinite. */
  lemma RunsEnd(c: Config, layers: seq<seq<string>>, a: State, b: State)
    requires ValidPlan(c.plan) && Layering(c.plan, layers) && StateInv(c, layers, a) && Next(c, layers, a, b)
    ensures b.run.progress.Keys == a.run.progress.Keys == StepIds(c.plan) && a.layer <= b.layer <= |layers|
    ensures TotalRank(c.plan.steps, b.run.progress) + |layers| - b.layer <
      TotalRank(c.plan.steps, a.run.progress) + |layers| - a.layer
  {
    StepKeepsInv(c, layers, a, b);
    if !NextLayer(layers, a, b) {
      var s, i :| StepsTo(c, layers, a, s, i, b);
      AdvanceDecreases(c, s, a.run);
    }
  }

  // ---- Serial runs ----

  /** What has not been reached has not started; in the current layer every step waits for those before it. */
  ghost predicate SerialInv(layers: seq<seq<string>>, a: State) {
    && (forall k, x :: a.layer < k < |layers| && x in layers[k] ==>
      x in a.run.progress && a.run.progress[x] == NotStarted)
    && (a.layer < |layers| ==> OneAtATime(layers[a.layer], a.run.progress))
  }

  ghost predicate OneAtATime(layer: seq<string>, progress: map<string, Progress>) {
    forall i, j :: 0 <= i < j < |layer| && layer[i] in progress && layer[j] in progress ==>
      progress[layer[j]] == NotStarted || progress[layer[i]] == Done
  }

  lemma SerialMove(c: Config, layers: seq<seq<string>>, a: State, s: Step, i: nat, b: State)
    requires NoDuplicates(Flatten(layers)) && SerialInv(layers, a) && StepsTo(c, layers, a, s, i, b)
    requires !c.parallel
    ensures SerialInv(layers, b)
  {
    forall k, x | b.layer < k < |layers| && x in layers[k]
      ensures x in b.run.progress && b.run.progress[x] == NotStarted
    {
      if x == s.id { LayerUnique(layers, x, a.layer, k); }
    }
    LayerDistinct(layers, a.layer);
    MoveOneAtATime(layers[a.layer], i, a.run.progress, b.run.progress);
  }

  lemma MoveOneAtATime(layer: seq<string>, i: nat, before: map<string, Progress>, after: map<string, Progress>)
    requires NoDuplicates(layer) && i < |layer| && OneAtATime(layer, before)
    requires layer[i] in before && before[layer[i]] != Done && after.Keys == before.Keys
    requires forall x :: x in before && x != layer[i] ==> after[x] == before[x]
    requires forall j :: 0 <= j < i ==> layer[j] in before && before[layer[j]] == Done
    ensures OneAtATime(layer, after)
  {
  }

  lemma {:induction false} SerialRunInv(c: Config, layers: seq<seq<string>>, trace: seq<State>, k: nat)
    requires ValidPlan(c.plan) && Layering(c.plan, layers) && IsRun(c, layers, trace) && k < |trace| && !c.parallel
    ensures SerialInv(layers, trace[k])
  {
    if k == 0 {
      NothingStarted(c, layers);
    } else {
      var before := k - 1;
      SerialRunInv(c, layers, trace, before);
      RunMoves(c, layers, trace, before, k);
      SerialNext(c, layers, trace[before], trace[k]);
    }
  }

  lemma SerialNext(c: Config, layers: seq<seq<string>>, a: State, b: State)
    requires NoDuplicates(Flatten(layers)) && SerialInv(layers, a) && Next(c, layers, a, b) && !c.parallel
    ensures SerialInv(layers, b)
  {
    if NextLayer(layers, a, b) {
      if b.layer < |layers| {
        assert forall x :: x in layers[b.layer] ==> x in a.run.progress && a.run.progress[x] == NotStarted;
      }
    } else {
      var s, i :| StepsTo(c, layers, a, s, i, b);
      SerialMove(c, layers, a, s, i, b);
    }
  }

  lemma NothingStarted(c: Config, layers: seq<seq<string>>)
    requires Layering(c.plan, layers)
    ensures SerialInv(layers, State(0, InitialRun(c.plan)))
  {
    forall k, x | 0 <= k < |layers| && x in layers[k] ensures x in StepIds(c.plan) {
      FlattenMember(layers, x);
    }
  }

  /** In every serial run a step starts only when those before it in its layer have ended: one step is under way. */
  lemma SerialRunsInOrder(c: Config, layers: seq<seq<string>>, trace: seq<State>, k: nat, i: nat, j: nat)
    requires ValidPlan(c.plan) && Layering(c.plan, layers) && IsRun(c, layers, trace) && k < |trace| && !c.parallel
    requires trace[k].layer < |layers| && i < j < |layers[trace[k].layer]|
    ensures OneWaits(layers[trace[k].layer], trace[k].run.progress, i, j)
  {
    SerialRunInv(c, layers, trace, k);
    RunInv(c, layers, trace, k);
    InPlan(c.plan, layers, trace[k].layer, i);
    InPlan(c.plan, layers, trace[k].layer, j);
    WaitsFor(layers[trace[k].layer], trace[k].run.progress, i, j);
  }

  ghost predicate OneWaits(layer: seq<string>, progress: map<string, Progress>, i: nat, j: nat)
    requires i < |layer| && j < |layer|
  {
    && layer[i] in progress && layer[j] in progress
    && (progress[layer[j]] == NotStarted || progress[layer[i]] == Done)
  }

  lemma WaitsFor(layer: seq<string>, progress: map<string, Progress>, i: nat, j: nat)
    requires i < j < |layer| && OneAtATime(layer, progress) && layer[i] in progress && layer[j] in progress
    ensures OneWaits(layer, progress, i, j)
  {
  }

  lemma InPlan(plan: Plan, layers: seq<seq<string>>, k: nat, i: nat)
    requires Layering(plan, layers) && k < |layers| && i < |layers[k]|
    ensures layers[k][i] in StepIds(plan)
  {
    FlattenMember(layers, layers[k][i]);
  }

  /** In every run a step that starts finds its dependencies ended, and with failFast all completed. */
  lemma RunsStartInOrder(c: Config, layers: seq<seq<string>>, trace: seq<State>, k: nat, s: Step, i: nat, d: string)
    requires ValidPlan(c.plan) && Layering(c.plan, layers) && IsRun(c, layers, trace) && k < |trace| - 1
    requires StepsTo(c, layers, trace[k], s, i, trace[k + 1]) && d in s.dependsOn
    requires trace[k].run.progress[s.id] == NotStarted && trace[k + 1].run.progress[s.id].Attempting?
    ensures d in trace[k].run.results && trace[k].run.results[d].status in {Completed, Failed, Skipped}
    ensures c.failFast ==> trace[k].run.results[d].status == Completed
  {
    RunInv(c, layers, trace, k);
    LayerReady(c, layers, trace[k], s);
    StartsAfterDependencies(c, s, trace[k].run, d);
  }
}
