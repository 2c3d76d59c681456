/** What the final records say, read off the attempts and the dependencies' records (youmi/coordinator/plan.py). */
module ExecutionReport {
  import opened Common
  import opened WorkflowPlans
  import opened CycleDetection
  import opened Execution

  // ---- The record of a step whose dependencies let it run ----

  function TextError(t: TaskResult): Option<StepError> {
    match t.error
    case None => None
    case Some(text) => Some(Message(text))
  }

  /** The last of the attempts 0..retryCount that returned a task result. */
  ghost predicate LastReturn(s: Step, oracle: (string, nat) -> Outcome, a: nat) {
    && a <= s.retryCount && oracle(s.id, a).Returned?
    && forall b: nat :: a < b <= s.retryCount ==> !oracle(s.id, b).Returned?
  }

  ghost predicate NoReturn(s: Step, oracle: (string, nat) -> Outcome) {
    forall b: nat :: b <= s.retryCount ==> !oracle(s.id, b).Returned?
  }

  /** A success: the first successful attempt, with its own result and error text. */
  ghost predicate CompletedWith(s: Step, oracle: (string, nat) -> Outcome, r: StepResult, a: nat) {
    && FirstSuccess(s, oracle, 0, a)
    && r == StepResult(Completed, Some(oracle(s.id, a).result), TextError(oracle(s.id, a).result))
  }

  /** The error a step reports when its last attempt ends with o. */
  ghost predicate Explains(o: Outcome, error: Option<StepError>) {
    match o
    case Returned(t) => error == TextError(t)
    case TimedOut => error == Some(Timeout)
    case Raised(m) => error == Some(Message(m))
  }

  /** A failure: the error of the last attempt and the task result of the last attempt that returned one. */
  ghost predicate FailedWith(s: Step, oracle: (string, nat) -> Outcome, r: StepResult) {
    && r.status == Failed
    && (forall b: nat :: b <= s.retryCount ==> !Succeeds(oracle(s.id, b)))
    && (if s.retryCount < 0 then r.error == None else Explains(oracle(s.id, s.retryCount), r.error))
    && (NoReturn(s, oracle) ==> r.taskResult == None)
    && forall a: nat :: LastReturn(s, oracle, a) ==> r.taskResult == Some(oracle(s.id, a).result)
  }

  ghost predicate Attempted(s: Step, oracle: (string, nat) -> Outcome, r: StepResult) {
    FailedWith(s, oracle, r) || exists a :: CompletedWith(s, oracle, r, a)
  }

  predicate Broken(d: string, results: Results) {
    d in results && (results[d].status == Failed || results[d].status == Skipped)
  }

  /** The entry keeps the step from running: it has no record, or fail_fast is on and it failed or was skipped. */
  predicate Stops(d: string, results: Results, failFast: bool) {
    d !in results || (failFast && Broken(d, results))
  }

  ghost predicate FirstStop(deps: seq<string>, results: Results, failFast: bool, i: int) {
    && 0 <= i < |deps| && Stops(deps[i], results, failFast)
    && forall j :: 0 <= j < i ==> !Stops(deps[j], results, failFast)
  }

  function StopError(d: string, results: Results): StepError {
    if d in results then DependencyFailed(d, results[d].error) else MissingStep(d)
  }

  /** Skipped because of the first entry that stops it, and with its error. */
  ghost predicate SkippedBecause(s: Step, results: Results, failFast: bool, r: StepResult, i: nat) {
    FirstStop(s.dependsOn, results, failFast, i) &&
      r == StepResult(Skipped, None, Some(StopError(s.dependsOn[i], results)))
  }

  /** The record of s is what its attempts and the records of its dependencies make of it. */
  ghost predicate Accounted(c: Config, s: Step, results: Results, r: StepResult) {
    if exists d :: d in s.dependsOn && Stops(d, results, c.failFast) then
      exists i :: SkippedBecause(s, results, c.failFast, r, i)
    else Attempted(s, c.oracle, r)
  }

  ghost predicate Report(c: Config, results: Results) {
    && results.Keys == StepIds(c.plan)
    && forall s :: s in c.plan.steps ==> Accounted(c, s, results, results[s.id])
  }

  // ---- The retry loop gives that record ----

  /** What is known before attempt k: no success so far, and the record and the error so far. */
  ghost predicate SoFar(s: Step, oracle: (string, nat) -> Outcome, k: nat, r: StepResult, e: Option<StepError>) {
    && k <= s.retryCount + 1 && NoSuccess(s.id, oracle, k)
    && ErrorSoFar(s.id, oracle, k, e) && ResultSoFar(s.id, oracle, k, r.taskResult)
  }

  ghost predicate NoSuccess(id: string, oracle: (string, nat) -> Outcome, k: nat) {
    forall b: nat :: b < k ==> !Succeeds(oracle(id, b))
  }

  ghost predicate ErrorSoFar(id: string, oracle: (string, nat) -> Outcome, k: nat, e: Option<StepError>) {
    if k == 0 then e == None else Explains(oracle(id, k - 1), e)
  }

  ghost predicate ResultSoFar(id: string, oracle: (string, nat) -> Outcome, k: nat, t: Option<TaskResult>) {
    && ((forall b: nat :: b < k ==> !oracle(id, b).Returned?) ==> t == None)
    && forall a: nat :: LastBefore(id, oracle, a, k) ==> t == Some(oracle(id, a).result)
  }

  ghost predicate LastBefore(id: string, oracle: (string, nat) -> Outcome, a: nat, k: nat) {
    && a < k && oracle(id, a).Returned?
    && forall b: nat :: a < b < k ==> !oracle(id, b).Returned?
  }

  lemma ResultGrows(id: string, oracle: (string, nat) -> Outcome, k: nat, next: nat, t: Option<TaskResult>, o: Outcome)
    requires ResultSoFar(id, oracle, k, t) && next == k + 1 && o == oracle(id, k)
    ensures ResultSoFar(id, oracle, next, if o.Returned? then Some(o.result) else t)
  {
    forall a: nat | LastBefore(id, oracle, a, next)
      ensures (if o.Returned? then Some(o.result) else t) == Some(oracle(id, a).result)
    {
      LastIsNew(id, oracle, a, k, next, o);
    }
  }

  lemma LastIsNew(id: string, oracle: (string, nat) -> Outcome, a: nat, k: nat, next: nat, o: Outcome)
    requires LastBefore(id, oracle, a, next) && next == k + 1 && o == oracle(id, k)
    ensures if o.Returned? then a == k else LastBefore(id, oracle, a, k)
  {
    assert a < k ==> !oracle(id, k).Returned?;
  }

  lemma FailureGrows(id: string, oracle: (string, nat) -> Outcome, k: nat, next: nat, o: Outcome)
    requires NoSuccess(id, oracle, k) && next == k + 1 && o == oracle(id, k) && !Succeeds(o)
    ensures NoSuccess(id, oracle, next) && ErrorSoFar(id, oracle, next, AttemptError(o))
  {
    assert next - 1 == k;
    forall b: nat | b < next ensures !Succeeds(oracle(id, b)) {
      assert b < k || b == k;
    }
  }

  lemma AfterFailure(r: StepResult, o: Outcome)
    requires !Succeeds(o)
    ensures AfterAttempt(r, o).taskResult == (if o.Returned? then Some(o.result) else r.taskResult)
    ensures Explains(o, AttemptError(o))
  {
  }

  lemma AttemptFails(s: Step, oracle: (string, nat) -> Outcome, k: nat, next: nat, r: StepResult, e: Option<StepError>,
                     o: Outcome)
    requires SoFar(s, oracle, k, r, e) && next == k + 1 && k <= s.retryCount && o == oracle(s.id, k) && !Succeeds(o)
    ensures SoFar(s, oracle, next, AfterAttempt(r, o), AttemptError(o))
  {
    AfterFailure(r, o);
    FailureGrows(s.id, oracle, k, next, o);
    ResultGrows(s.id, oracle, k, next, r.taskResult, o);
  }

  lemma SuccessReports(s: Step, oracle: (string, nat) -> Outcome, k: nat, r: StepResult, e: Option<StepError>,
                       o: Outcome)
    requires SoFar(s, oracle, k, r, e) && k <= s.retryCount && o == oracle(s.id, k) && Succeeds(o)
    ensures CompletedWith(s, oracle, AfterAttempt(r, o), k)
  {
  }

  lemma LoopStep(s: Step, oracle: (string, nat) -> Outcome, k: nat, next: nat, r: StepResult, e: Option<StepError>,
                 o: Outcome)
    requires k <= s.retryCount && next == k + 1 && o == oracle(s.id, k) && !Succeeds(o)
    ensures RunAttempts(s, oracle, k, r, e) == RunAttempts(s, oracle, next, AfterAttempt(r, o), AttemptError(o))
  {
  }

  lemma {:induction false} LoopReports(s: Step, oracle: (string, nat) -> Outcome, k: nat, r: StepResult,
                                       e: Option<StepError>)
    requires s.retryCount >= 0 && SoFar(s, oracle, k, r, e)
    ensures Attempted(s, oracle, RunAttempts(s, oracle, k, r, e))
    decreases s.retryCount + 1 - k
  {
    if k == s.retryCount + 1 {
      AllFailed(s, oracle, k, r, e);
    } else {
      var o := oracle(s.id, k);
      if Succeeds(o) {
        SuccessReports(s, oracle, k, r, e, o);
      } else {
        var next := k + 1;
        AttemptFails(s, oracle, k, next, r, e, o);
        LoopReports(s, oracle, next, AfterAttempt(r, o), AttemptError(o));
        LoopStep(s, oracle, k, next, r, e, o);
      }
    }
  }

  lemma AllFailed(s: Step, oracle: (string, nat) -> Outcome, k: nat, r: StepResult, e: Option<StepError>)
    requires s.retryCount >= 0 && SoFar(s, oracle, k, r, e) && k == s.retryCount + 1
    ensures FailedWith(s, oracle, StepResult(Failed, r.taskResult, e))
  {
    forall a: nat | LastReturn(s, oracle, a) ensures r.taskResult == Some(oracle(s.id, a).result) {
      LastOfAll(s, oracle, a, k);
    }
  }

  lemma LastOfAll(s: Step, oracle: (string, nat) -> Outcome, a: nat, k: nat)
    requires LastReturn(s, oracle, a) && k == s.retryCount + 1
    ensures LastBefore(s.id, oracle, a, k)
  {
  }

  /** Whatever the attempts do, the retry loop leaves the record described above. */
  lemma AttemptsReport(s: Step, oracle: (string, nat) -> Outcome)
    ensures Attempted(s, oracle, RunAttempts(s, oracle, 0, StepResult(Running, None, None), None))
  {
    if s.retryCount >= 0 { LoopReports(s, oracle, 0, StepResult(Running, None, None), None); }
  }

  // ---- Skips ----

  lemma {:induction false} CheckProceeds(deps: seq<string>, results: Results, failFast: bool)
    ensures DependencyCheck(deps, results, failFast) == Proceed <==>
      forall d :: d in deps ==> !Stops(d, results, failFast)
  {
    if deps != [] {
      var tail := deps[1..];
      CheckProceeds(tail, results, failFast);
      HeadAndTail(deps, tail);
      assert Stops(deps[0], results, failFast) ==> DependencyCheck(deps, results, failFast) != Proceed;
    }
  }

  lemma HeadAndTail(deps: seq<string>, tail: seq<string>)
    requires deps != [] && tail == deps[1..]
    ensures deps[0] in deps && forall d :: d in deps <==> d == deps[0] || d in tail
  {
    assert deps == [deps[0]] + tail;
  }

  lemma {:induction false} CheckNames(deps: seq<string>, results: Results, failFast: bool, i: nat)
    requires FirstStop(deps, results, failFast, i)
    ensures DependencyCheck(deps, results, failFast) == Skip(StopError(deps[i], results))
  {
    if i > 0 {
      var tail, k := deps[1..], i - 1;
      StopBehindHead(deps, tail, results, failFast, i, k);
      CheckNames(tail, results, failFast, k);
    }
  }

  /** The check stops at the first entry that stops the step and names it; otherwise the step proceeds. */
  lemma CheckExact(deps: seq<string>, results: Results, failFast: bool)
    ensures DependencyCheck(deps, results, failFast) == Proceed <==>
      forall d :: d in deps ==> !Stops(d, results, failFast)
    ensures forall i :: FirstStop(deps, results, failFast, i) ==>
      DependencyCheck(deps, results, failFast) == Skip(StopError(deps[i], results))
  {
    CheckProceeds(deps, results, failFast);
    forall i | FirstStop(deps, results, failFast, i)
      ensures DependencyCheck(deps, results, failFast) == Skip(StopError(deps[i], results))
    {
      CheckNames(deps, results, failFast, i);
    }
  }

  lemma StopBehindHead(deps: seq<string>, tail: seq<string>, results: Results, failFast: bool, i: nat, k: nat)
    requires FirstStop(deps, results, failFast, i) && i == k + 1 && tail == deps[1..]
    ensures FirstStop(tail, results, failFast, k) && tail[k] == deps[i] && !Stops(deps[0], results, failFast)
  {
    forall j | 0 <= j < k ensures !Stops(tail[j], results, failFast) {
      assert tail[j] == deps[j + 1];
    }
  }

  lemma {:induction false} SomeFirstStop(deps: seq<string>, results: Results, failFast: bool, d: string)
    returns (i: nat)
    requires d in deps && Stops(d, results, failFast)
    ensures FirstStop(deps, results, failFast, i)
  {
    var init, last := deps[..|deps| - 1], deps[|deps| - 1];
    if e :| e in init && Stops(e, results, failFast) {
      i := SomeFirstStop(init, results, failFast, e);
      assert forall j :: 0 <= j <= i ==> deps[j] == init[j];
    } else {
      i := |deps| - 1;
      forall j | 0 <= j < i ensures !Stops(deps[j], results, failFast) {
        assert deps[j] == init[j];
      }
    }
  }

  lemma OutcomeAccounted(c: Config, s: Step, results: Results)
    ensures Accounted(c, s, results, StepOutcome(c, s, results))
  {
    CheckExact(s.dependsOn, results, c.failFast);
    if d :| d in s.dependsOn && Stops(d, results, c.failFast) {
      var i := SomeFirstStop(s.dependsOn, results, c.failFast, d);
      assert SkippedBecause(s, results, c.failFast, StepOutcome(c, s, results), i);
    } else {
      AttemptsReport(s, c.oracle);
    }
  }

  // ---- The description leaves no freedom ----

  lemma {:induction false} SomeLastReturn(s: Step, oracle: (string, nat) -> Outcome, b: nat, n: nat) returns (a: nat)
    requires b <= n && n <= s.retryCount && oracle(s.id, b).Returned?
    requires forall x: nat :: n < x <= s.retryCount ==> !oracle(s.id, x).Returned?
    ensures LastReturn(s, oracle, a)
    decreases n
  {
    if oracle(s.id, n).Returned? { a := n; } else { a := SomeLastReturn(s, oracle, b, n - 1); }
  }

  lemma AttemptedUnique(s: Step, oracle: (string, nat) -> Outcome, q: StepResult, r: StepResult)
    requires Attempted(s, oracle, q) && Attempted(s, oracle, r)
    ensures q == r
  {
    if FailedWith(s, oracle, q) && FailedWith(s, oracle, r) {
      if !NoReturn(s, oracle) {
        var b: nat :| b <= s.retryCount && oracle(s.id, b).Returned?;
        var a := SomeLastReturn(s, oracle, b, s.retryCount);
      }
    } else if !FailedWith(s, oracle, q) && !FailedWith(s, oracle, r) {
      var a :| CompletedWith(s, oracle, q, a);
      var b :| CompletedWith(s, oracle, r, b);
      assert a == b;
    } else {
      assert false;
    }
  }

  lemma AccountedUnique(c: Config, s: Step, results: Results, q: StepResult, r: StepResult)
    requires Accounted(c, s, results, q) && Accounted(c, s, results, r)
    ensures q == r
  {
    if exists d :: d in s.dependsOn && Stops(d, results, c.failFast) {
      var i :| SkippedBecause(s, results, c.failFast, q, i);
      var j :| SkippedBecause(s, results, c.failFast, r, j);
      assert i == j;
    } else {
      AttemptedUnique(s, c.oracle, q, r);
    }
  }

  /** The description and the equations of the code have the same solutions. */
  lemma ReportIffSolution(c: Config, results: Results)
    ensures Report(c, results) <==> Solution(c, results)
  {
    if results.Keys == StepIds(c.plan) {
      forall s | s in c.plan.steps
        ensures Accounted(c, s, results, results[s.id]) <==> results[s.id] == StepOutcome(c, s, results)
      {
        OutcomeAccounted(c, s, results);
        if Accounted(c, s, results, results[s.id]) {
          AccountedUnique(c, s, results, results[s.id], StepOutcome(c, s, results));
        }
      }
    }
  }
}
