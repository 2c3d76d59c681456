/** The executor object: execute, its two layer strategies and the retry loop (youmi/coordinator/plan.py). */
module Executor {
  import opened Common
  import opened WorkflowPlans
  import opened CycleDetection
  import opened ExecutionOrder
  import opened Execution
  import opened ExecutionReport

  class WorkflowExecutor {
    const config: Config
    var results: Results
    var progress: map<string, Progress>  // where the event loop has left the coroutine of each step

    constructor (config: Config)
      ensures this.config == config && results == map[]
    {
      this.config := config;
      results, progress := map[], map[];
    }

    function CurrentRun(): Run
      reads this
    {
      Run(results, progress)
    }

    method CheckDependencies(s: Step) returns (check: Check)
      ensures check == DependencyCheck(s.dependsOn, results, config.failFast)
      ensures check == Proceed <==> forall d :: d in s.dependsOn ==> !Stops(d, results, config.failFast)
      ensures forall i :: FirstStop(s.dependsOn, results, config.failFast, i) ==>
        check == Skip(StopError(s.dependsOn[i], results))
    {
      CheckExact(s.dependsOn, results, config.failFast);
      for i := 0 to |s.dependsOn|
        invariant DependencyCheck(s.dependsOn, results, config.failFast)
          == DependencyCheck(s.dependsOn[i..], results, config.failFast)
      {
        var dep := s.dependsOn[i];
        assert s.dependsOn[i..][1..] == s.dependsOn[i + 1..];
        if dep !in results {
          return Skip(MissingStep(dep));
        }
        if results[dep].status in {Failed, Skipped} {
          if config.failFast {
            return Skip(DependencyFailed(dep, results[dep].error));
          }
        }
      }
      return Proceed;
    }

    method SetResult(id: string, r: StepResult)
      modifies this`results
      ensures results == old(results)[id := r]
    {
      results := results[id := r];
    }

    /** One step from start to end: afterwards its record is the one its dependencies and attempts call for. */
    method ExecuteStep(id: string)
      requires id in results && results[id] == FRESH
      modifies this
      ensures var s := GetStep(config.plan.steps, id);
        results == if s.None? then old(results) else old(results)[id := StepOutcome(config, s.value, old(results))]
      ensures progress == if GetStep(config.plan.steps, id).None? then old(progress) else old(progress)[id := Done]
      ensures AccountedFor(config, GetStep(config.plan.steps, id), id, old(results), results)
    {
      var found := GetStep(config.plan.steps, id);
      if found.None? { return; }
      var s := found.value;
      ghost var before := results;
      progress := progress[id := Done];
      var check := CheckDependencies(s);
      if check.Skip? {
        SetResult(id, StepResult(Skipped, results[id].taskResult, Some(check.error)));
        StepAccounted(config, s, id, before, results);
        return;
      }
      SetResult(id, results[id].(status := Running));
      var lastError: Option<StepError> := None;
      var attempt: nat := 0;
      var succeeded := false;
      while attempt < s.retryCount + 1
        invariant id in results && results == old(results)[id := results[id]]
        invariant !succeeded && progress == old(progress)[id := Done]
        invariant RunAttempts(s, config.oracle, attempt, results[id], lastError) == StepOutcome(config, s, old(results))
      {
        var outcome := config.oracle(id, attempt);
        SetResult(id, AfterAttempt(results[id], outcome));
        if Succeeds(outcome) {
          succeeded := true;
          break;
        }
        lastError := AttemptError(outcome);
        attempt := attempt + 1;
      }
      if !succeeded {
        SetResult(id, StepResult(Failed, results[id].taskResult, lastError));
      }
      StepAccounted(config, s, id, before, results);
    }

    method ExecuteLayerSerial(layer: seq<string>)
      requires Ready(config, layer, CurrentRun())
      modifies this
      ensures Executed(config, layer, old(CurrentRun()), CurrentRun())
    {
      ghost var before := CurrentRun();
      for i := 0 to |layer|
        invariant SerialFront(config, layer, i, before, CurrentRun())
      {
        SerialStep(config, layer, i, before, CurrentRun());
        ExecuteStep(layer[i]);
      }
    }

    /** The coroutine of a step resumes and runs up to its next await. */
    method Resume(s: Step)
      requires s.id in results && s.id in progress
      modifies this
      ensures CurrentRun() == Advance(config, s, old(CurrentRun()))
    {
      var run := Advance(config, s, CurrentRun());
      results, progress := run.results, run.progress;
    }

    /** All steps of the layer run concurrently; which coroutine resumes next is left open. */
    method ExecuteLayerParallel(layer: seq<string>)
      requires Ready(config, layer, CurrentRun())
      modifies this
      ensures Executed(config, layer, old(CurrentRun()), CurrentRun())
    {
      ghost var before := CurrentRun();
      while !LayerDone(layer, CurrentRun())
        invariant Consistent(config, CurrentRun()) && Framed(config, layer, before, CurrentRun())
        decreases TotalRank(config.plan.steps, progress)
      {
        var id :| id in layer && (id in progress ==> progress[id] != Done);
        KnownStep(config.plan, id);
        var s := GetStep(config.plan.steps, id).value;
        ghost var now := CurrentRun();
        Resume(s);
        StepMoves(config, layer, before, now, s, CurrentRun());
      }
    }

    /**
     * A plan that does not validate is refused. Otherwise every mode and every schedule ends with the unique solution
     * of the plan.
     */
    method Execute() returns (r: Result<Results, seq<PlanError>>)
      modifies this
      ensures r.Ok? <==> ValidPlan(config.plan)
      ensures r.Ok? ==> r.value == results && Solution(config, results) && Report(config, results)
      ensures r.Err? ==> r.error != [] && results == old(results)
    {
      var errors := Validate(config.plan);
      if errors != [] {
        return Err(errors);
      }
      var run := InitialRun(config.plan);
      results, progress := run.results, run.progress;
      var layers := GetExecutionOrder(config.plan);
      InitialConsistent(config, layers);
      for k := 0 to |layers|
        invariant StateInv(config, layers, State(k, CurrentRun()))
        invariant forall x :: x in StepIds(config.plan) && x !in Flatten(layers[..k]) ==> progress[x] == NotStarted
      {
        var layer := layers[k];
        ghost var before := CurrentRun();
        LayerIsReady(config, layers, k, before);
        if config.parallel && |layer| > 1 {
          ExecuteLayerParallel(layer);
        } else {
          ExecuteLayerSerial(layer);
        }
        LayerFinished(config, layers, k, k + 1, before, CurrentRun());
      }
      assert layers[..|layers|] == layers;
      FinishedIsSolution(config, layers, CurrentRun());
      ReportIffSolution(config, results);
      r := Ok(results);
    }
  }

  /** The record of the step, if the plan has it, is what its attempts and dependencies account for. */
  ghost predicate AccountedFor(c: Config, s: Option<Step>, id: string, before: Results, after: Results) {
    s.Some? ==> id in after && Accounted(c, s.value, before, after[id])
  }

  lemma StepAccounted(c: Config, s: Step, id: string, before: Results, after: Results)
    requires after == before[id := StepOutcome(c, s, before)]
    ensures AccountedFor(c, Some(s), id, before, after)
  {
    OutcomeAccounted(c, s, before);
  }

  /** What a layer needs before it may run. */
  ghost predicate Ready(c: Config, layer: seq<string>, run: Run) {
    && ValidPlan(c.plan) && Consistent(c, run) && NoDuplicates(layer)
    && (forall x :: x in layer ==> x in StepIds(c.plan) && run.progress[x] == NotStarted)
    && (forall s :: s in c.plan.steps && s.id in layer ==> DependenciesDone(s, run))
  }

  /** While a layer runs, everything outside it stays as it was. */
  ghost predicate Framed(c: Config, layer: seq<string>, before: Run, now: Run) {
    && before.progress.Keys == before.results.Keys == now.progress.Keys == now.results.Keys == StepIds(c.plan)
    && (forall x :: x in layer ==> x in now.progress)
    && (forall x :: x in now.progress && x !in layer ==>
          now.progress[x] == before.progress[x] && now.results[x] == before.results[x])
    && (forall s :: s in c.plan.steps && s.id in layer ==> DependenciesDone(s, now))
  }

  ghost predicate Executed(c: Config, layer: seq<string>, before: Run, after: Run) {
    Consistent(c, after) && Framed(c, layer, before, after) && LayerDone(layer, after)
  }

  lemma FramedMove(c: Config, layer: seq<string>, before: Run, now: Run, id: string, r: StepResult, p: Progress)
    requires Framed(c, layer, before, now) && id in layer && now.progress[id] != Done
    ensures Framed(c, layer, before, Move(now, id, r, p))
  {
    var next := Move(now, id, r, p);
    forall s | s in c.plan.steps && s.id in layer ensures DependenciesDone(s, next) {
      assert DependenciesDone(s, now);
    }
  }

  /** The first i steps of a layer have ended, the others have not started. */
  ghost predicate SerialFront(c: Config, layer: seq<string>, i: nat, before: Run, now: Run) {
    && ValidPlan(c.plan) && Consistent(c, now) && Framed(c, layer, before, now) && NoDuplicates(layer)
    && forall j :: 0 <= j < |layer| ==> now.progress[layer[j]] == if j < i then Done else NotStarted
  }

  lemma SerialStep(c: Config, layer: seq<string>, i: nat, before: Run, now: Run)
    requires SerialFront(c, layer, i, before, now) && i < |layer|
    ensures layer[i] in now.results && now.results[layer[i]] == FRESH && GetStep(c.plan.steps, layer[i]).Some?
    ensures SerialFront(c, layer, i + 1, before,
      Move(now, layer[i], StepOutcome(c, GetStep(c.plan.steps, layer[i]).value, now.results), Done))
  {
    var id := layer[i];
    assert now.progress[id] == NotStarted;
    KnownStep(c.plan, id);
    var s := GetStep(c.plan.steps, id).value;
    assert OnTrack(c, s, now);
    WholeStepConsistent(c, s, now);
    FramedMove(c, layer, before, now, id, StepOutcome(c, s, now.results), Done);
    FrontMoves(layer, i, i + 1, now.progress, now.progress[id := Done]);
  }

  lemma FrontMoves(layer: seq<string>, i: nat, next: nat, now: map<string, Progress>, after: map<string, Progress>)
    requires NoDuplicates(layer) && next == i + 1 <= |layer| && after == now[layer[i] := Done]
    requires forall j :: 0 <= j < |layer| ==> layer[j] in now && now[layer[j]] == if j < i then Done else NotStarted
    ensures forall j :: 0 <= j < |layer| ==>
      layer[j] in after && after[layer[j]] == if j < next then Done else NotStarted
  {
  }

  lemma KnownStep(plan: Plan, id: string)
    requires id in StepIds(plan)
    ensures GetStep(plan.steps, id).Some?
  {
  }

  lemma AdvanceIsMove(c: Config, s: Step, run: Run)
    requires s.id in run.results && s.id in run.progress && run.progress[s.id] != Done
    ensures var next := Advance(c, s, run);
      s.id in next.results && s.id in next.progress && next == Move(run, s.id, next.results[s.id], next.progress[s.id])
  {
  }

  lemma StepMoves(c: Config, layer: seq<string>, before: Run, now: Run, s: Step, next: Run)
    requires ValidPlan(c.plan) && Consistent(c, now) && Framed(c, layer, before, now)
    requires s in c.plan.steps && s.id in layer && now.progress[s.id] != Done && next == Advance(c, s, now)
    ensures Consistent(c, next) && Framed(c, layer, before, next)
    ensures s.id in next.results && s.id in next.progress &&
      next == Move(now, s.id, next.results[s.id], next.progress[s.id])
    ensures TotalRank(c.plan.steps, next.progress) < TotalRank(c.plan.steps, now.progress)
  {
    AdvanceKeepsConsistent(c, s, now);
    AdvanceDecreases(c, s, now);
    AdvanceIsMove(c, s, now);
    FramedMove(c, layer, before, now, s.id, next.results[s.id], next.progress[s.id]);
  }

  /** Running one step from start to end keeps every step on track. */
  lemma WholeStepConsistent(c: Config, s: Step, now: Run)
    requires UniqueIds(c.plan) && NoSelfDependency(c.plan) && Consistent(c, now)
    requires s in c.plan.steps && now.progress[s.id] == NotStarted && DependenciesDone(s, now)
    ensures Consistent(c, Move(now, s.id, StepOutcome(c, s, now.results), Done))
  {
    var next := Move(now, s.id, StepOutcome(c, s, now.results), Done);
    forall t | t in c.plan.steps
      ensures OnTrack(c, t, next)
      ensures next.progress[t.id] != NotStarted ==> DependenciesDone(t, next)
    {
      if t.id == s.id {
        SameIdSameStep(c.plan, s, t);
        OutcomeFrame(c, s, now.results, next.results);
      } else {
        WholeStepOther(c, s, t, now);
      }
    }
  }

  lemma WholeStepOther(c: Config, s: Step, t: Step, now: Run)
    requires s.id in now.results && s.id in now.progress && t.id in now.results && t.id in now.progress
    requires now.progress[s.id] == NotStarted && s.id != t.id && OnTrack(c, t, now)
    requires now.progress[t.id] != NotStarted ==> DependenciesDone(t, now)
    ensures var next := Move(now, s.id, StepOutcome(c, s, now.results), Done);
      OnTrack(c, t, next) && (next.progress[t.id] != NotStarted ==> DependenciesDone(t, next))
  {
    if now.progress[t.id] != NotStarted {
      OutcomeFrame(c, t, now.results, Move(now, s.id, StepOutcome(c, s, now.results), Done).results);
    }
  }

  lemma LayerIsReady(c: Config, layers: seq<seq<string>>, k: nat, run: Run)
    requires ValidPlan(c.plan) && Layering(c.plan, layers) && k < |layers|
    requires StateInv(c, layers, State(k, run))
    requires forall x :: x in StepIds(c.plan) && x !in Flatten(layers[..k]) ==> run.progress[x] == NotStarted
    ensures Ready(c, layers[k], run)
    ensures forall x :: x in layers[k] ==> x !in Flatten(layers[..k])
  {
    LayerDistinct(layers, k);
    forall s | s in c.plan.steps && s.id in layers[k] ensures DependenciesDone(s, run) {
      LayerReady(c, layers, State(k, run), s);
    }
    forall x | x in layers[k] ensures x in StepIds(c.plan) {
      FlattenMember(layers, x);
    }
  }

  lemma LayerFinished(c: Config, layers: seq<seq<string>>, k: nat, next: nat, before: Run, after: Run)
    requires ValidPlan(c.plan) && Layering(c.plan, layers) && next == k + 1 <= |layers|
    requires StateInv(c, layers, State(k, before)) && Executed(c, layers[k], before, after)
    requires forall x :: x in StepIds(c.plan) && x !in Flatten(layers[..k]) ==> before.progress[x] == NotStarted
    ensures StateInv(c, layers, State(next, after))
    ensures forall x :: x in StepIds(c.plan) && x !in Flatten(layers[..next]) ==> after.progress[x] == NotStarted
  {
    FlattenStep(layers, k, next);
    LayerDistinct(layers, k);
  }

  lemma FlattenStep(layers: seq<seq<string>>, k: nat, next: nat)
    requires next == k + 1 <= |layers|
    ensures Flatten(layers[..next]) == Flatten(layers[..k]) + layers[k]
  {
    assert layers[..next][..k] == layers[..k];
  }
}
