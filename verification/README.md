# Verified model of the youmi multi-agent framework

The project models the deterministic core of the framework and proves what its parts promise.

* **Workflow plans** (`WorkflowPlan.dfy`, `CycleDetection.dfy`, `ExecutionOrder.dfy`, `LayerOrder.dfy`): the
  depth-first cycle detector, plan validation and Kahn layering, proved against walks, cycles and longest chains of
  the dependency graph.
* **Workflow execution** (`Execution.dfy`, `ExecutionReport.dfy`, `Executor.dfy`): retries, skip propagation and
  concurrent layers as a transition system with an arbitrary scheduler, and the executor object whose final result map
  is the unique solution of the plan.
* **Task gateway** (`GatewayModel.dfy`, `GatewayProtocol.dfy`, `GatewayGuarantees.dfy`, `GatewayHistory.dfy`,
  `GatewayObjects.dfy`): submit, worker loop, event hub and registry as one step protocol, each stretch between two
  awaits being one atomic action; the mutable registry and hub objects refine the values the protocol uses.
* **Resilience** (`Breaker.dfy`, `BreakerLaws.dfy`, `Retry.dfy`): the circuit breaker under concurrent calls and the
  tool executor as its client; backoff delays and the retry loop.
* **JSON block scanner** (`BlockScanner.dfy`, `JsonText.dfy`): the three-variable automaton against a grammar of
  balanced, string-aware blocks, and the JSON object grammar of RFC 8259 inside it.
* **Tool guardian** (`Guardian.dfy`, `GuardianRounds.dfy`, `RuleRepair.dfy`): the report queue with its lexicographic
  measure, its rounds split at their awaits, and the idempotent rule-based repair.
* **Message broker** (`Broker.dfy`, `BrokerRuns.dfy`, `BrokerHistory.dfy`, `BrokerObject.dfy`): membership,
  tenant-filtered routing, exact per-agent delivery and acknowledgement tracking.
* **Plan memory** (`Vectors.dfy`, `Sorting.dfy`, `Counting.dfy`, `PlanSearch.dfy`, `SearchAgreement.dfy`,
  `SearchExactness.dfy`): cosine and distance over exact reals, exactly when the two searches agree, the upsert table.
* **Planner, versions, prompts** (`Planner.dfy`, `Text.dfy`, `Decimal.dfy`, `Versioning.dfy`, `Promotion.dfy`,
  `PromptAssembly.dfy`): template reuse, the version chain and its promotion gate, budgeted prompt assembly.

Model replies, step and call outcomes, repair outcomes and clock readings are parameters (oracles) over which every
theorem quantifies. Where the code changes objects in place, the model has a class whose methods are proved against
functions on values, and the properties are proved about those functions. What the stateful parts hold after a run is
moreover read off the actions of the run alone (`GatewayHistory`, `BrokerHistory`, `BreakerLaws`), and final records,
execution orders and rankings have descriptions of their own (`ExecutionReport`, `LayerOrder`, `SearchExactness`).

Where the code does less than one might expect, that is stated as theorems, with an input that shows it and an exact
condition for the property to hold:

* the circuit breaker rejects every call for ever if and only if cancelled probes hold every half-open slot
  (`Breaker.RejectsForEverIffSlotsLost`, `Breaker.CancelledProbeWedges`);
* issuing a workflow id keeps the membership maps inverse if and only if nobody joined it before
  (`Broker.CreateKeepsInverseIff`, `Broker.JoiningAheadBreaksInverse`);
* queued messages keep their acknowledgement entries if and only if no key of theirs is hit, which ids with a colon
  allow (`BrokerRuns.TrackedIffHarmless`, `BrokerRuns.ColonRunLosesEntry`);
* the index and an exact scan of the plan memory always agree if and only if the hits needed are within reach of the
  index (`SearchExactness.SearchesAlwaysAgreeIff`, `SearchAgreement.SearchPathsDiffer`), and the scan is exact if and
  only if what it does not load is matched by what it loads (`SearchExactness.ScanAgreesIff`,
  `SearchExactness.ScanMissesBest`);
* the two paths score a pair of vectors alike if and only if neither is zero (`Vectors.KnnScoreExactIff`,
  `Vectors.ZeroVectorScores`);
* a tool's usage is its number of calls if and only if no failure raises while it is counted
  (`Promotion.CountedOnceIff`, `Promotion.NullErrorCountsTwice`);
* the tool guardian loses no report over a run if and only if no repair raises in it, and then it loses exactly what
  the round had not yet dealt with (`GuardianRounds.NothingLostIffNoEscape`, `GuardianRounds.EscapeLoses`,
  `GuardianRounds.EscapeRun`);
* jitter keeps the documented maximum delay if and only if the largest draw fits (`Retry.JitterWithinCapIff`,
  `Retry.JitterExceedsCap`);
* a repair changes nothing if and only if each of its parts is blank or already contained; with the same parts a
  second repair never does, but another iteration order of a Python set makes other parts
  (`RuleRepair.UnchangedIffNothingFresh`, `RuleRepair.RepairIdempotent`, `RuleRepair.OtherListingAppendsAgain`).

`dafny verify dfyconfig.toml` checks the whole project.

## Model

| member | source | states |
|---|---|---|
| `CycleDetection.DetectCycle` | `youmi/coordinator/plan.py:191-221` | For every plan, duplicate ids and unresolved dependencies included: nothing is reported if and only if the adjacency map has no closed walk; what is reported is a genuine cycle along `depends_on` edges, its first and last elements equal and its inner vertices distinct |
| `CycleDetection.Detector.Dfs` | `youmi/coordinator/plan.py:198-214` | A call that finds nothing leaves the stack `path` unchanged, keeps the finish order valid and finishes its node; otherwise it returns a simple cycle |
| `CycleDetection.FinishOrderAcyclic` | `youmi/coordinator/plan.py:198-221` | An order in which every vertex follows all its dependencies and which covers the graph excludes every closed walk, of any length |
| `CycleDetection.Validate` | `youmi/coordinator/plan.py:160-189` | The error list is empty if and only if ids are unique, every dependency exists, no step depends on itself and the graph is acyclic; each kind of error appears exactly for the offending steps; a cycle is reported only alone |
| `CycleDetection.ReferenceErrorsExact` | `youmi/coordinator/plan.py:172-181` | The reference errors are exactly one per unresolved dependency and per self dependency of some step |
| `CycleDetection.DistinctIdCount` | `youmi/coordinator/plan.py:167-170` | Comparing the size of the id set with the number of steps detects duplicate ids exactly |
| `ExecutionOrder.GetExecutionOrder` | `youmi/coordinator/plan.py:223-252` | For every plan no step is emitted twice and only steps are emitted; with unique ids the result is a layering: dependencies lie in earlier layers, one of them in the layer just before; what is left out has a dependency left out; and every layer stands in order |
| `LayerOrder.StandsBeforeIff` | `youmi/coordinator/plan.py:239-250` | The first layer lists its steps in plan order; in every later one x stands before y if and only if the last dependency of x in the layer before, by position there, is earlier than that of y, or it is the same one and x stands before y in the plan |
| `LayerOrder.OrderUnique` | `youmi/coordinator/plan.py:223-252` | A plan has exactly one layering whose layers stand in that order, so the returned list of lists is fixed position by position |
| `ExecutionOrder.NextArranged` | `youmi/coordinator/plan.py:240-250` | The queue filled while a layer is processed is arranged by the last dependencies of its steps in that layer |
| `ExecutionOrder.SameOrder` | `youmi/coordinator/plan.py:223-252` | Plans with the same ids and dependency lists, position by position and duplicates included, have the same list of layers |
| `ExecutionOrder.StepsRelease` | `youmi/coordinator/plan.py:242-250` | Processing a layer lowers every in-degree by exactly the occurrences of the layer in the dependency list, and queues exactly the steps whose in-degree falls from above zero, each once |
| `ExecutionOrder.BuildTables` | `youmi/coordinator/plan.py:229-235` | The two dictionaries hold the length of each dependency list and, per dependency, the dependents with multiplicity |
| `ExecutionOrder.LayerIsLongestChain` | `youmi/coordinator/plan.py:223-252` | A laid-out step is in layer k if and only if its longest dependency chain has length k |
| `ExecutionOrder.LaidOutIffNotBlocked` | `youmi/coordinator/plan.py:223-252` | A step is laid out if and only if no walk along its dependencies leaves the plan or returns to a vertex it visited |
| `ExecutionOrder.BlockedMeansCycle` | `youmi/coordinator/plan.py:223-252` | In a resolved plan a step is blocked if and only if its dependencies lead into a cycle |
| `ExecutionOrder.AllLaidOutIffAcyclic` | `youmi/coordinator/plan.py:183-252` | All steps of a resolved plan are laid out if and only if the graph is acyclic, that is, if and only if the detector reports nothing |
| `ExecutionOrder.ReleasedIsOutstanding` | `youmi/coordinator/plan.py:240-250` | The in-degree bookkeeping counts the dependency-list entries not yet laid out, repeated entries included |
| `ExecutionReport.AttemptsReport` | `youmi/coordinator/plan.py:427-499` | What the retry loop leaves: the first success with its own result and error text, or a failure whose error is the text the last attempt returned, a timeout if it ran out of time, or the message it raised, and whose task result is that of the last attempt that returned one |
| `ExecutionReport.CheckExact` | `youmi/coordinator/plan.py:394-411` | The step proceeds if and only if no entry of its list is without a record or, with fail_fast, failed or skipped; otherwise the first such entry is named, with its own error |
| `ExecutionReport.ReportIffSolution` | `youmi/coordinator/plan.py:384-507` | The case-by-case description of every final record, read off attempts and dependencies alone, and the equations of the code have the same solutions |
| `Execution.CheckMeaning` | `youmi/coordinator/plan.py:394-411` | With all dependencies recorded a step is skipped if and only if fail_fast is set and some dependency failed or was skipped |
| `Execution.AdvanceKeepsConsistent` | `youmi/coordinator/plan.py:384-507` | Whichever step with finished dependencies resumes next, for whatever outcome, every step stays on course for the record its own attempts and its dependencies call for |
| `Execution.SolutionUnique` | `youmi/coordinator/plan.py:322-507` | A valid plan and an outcome oracle admit at most one final result map |
| `Execution.RunInv` | `youmi/coordinator/plan.py:376-507` | Every state of every run under any scheduler keeps all steps on course and all earlier layers finished |
| `Execution.RunsAgree` | `youmi/coordinator/plan.py:371-382` | Confluence: any two complete runs of the same plan, serial or parallel and under any interleaving, end with the same result map |
| `Execution.SomeMoveEnabled` | `youmi/coordinator/plan.py:371-507` | No deadlock: while a layer is unfinished some step can move |
| `Execution.RunsEnd` | `youmi/coordinator/plan.py:371-507` | Every step of a run lowers a measure, so no schedule goes on for ever |
| `Execution.RunsStartInOrder` | `youmi/coordinator/plan.py:394-414` | In every run a step starts only when all its dependencies have ended, with fail_fast only when all of them completed |
| `Execution.SerialRunsInOrder` | `youmi/coordinator/plan.py:371-374` | In every serial run a step starts only when all steps before it in its layer have ended: one step is under way at a time |
| `Execution.SkippedIffFailedAncestor` | `youmi/coordinator/plan.py:394-411` | With fail_fast a step is SKIPPED if and only if some proper ancestor FAILED; without it nothing is skipped |
| `Execution.OutcomeOfPlan` | `youmi/coordinator/plan.py:322-369` | The final results of a valid plan: every step terminal, skips exactly below failures |
| `Execution.FinishedIsSolution` | `youmi/coordinator/plan.py:346-369` | When the last layer has ended the result map is the solution of the plan |
| `Executor.WorkflowExecutor.ExecuteStep` | `youmi/coordinator/plan.py:384-507` | The imperative step body (dependency loop, retry loop with its else branch) changes one record, to the one its attempts and dependencies account for |
| `Executor.WorkflowExecutor.CheckDependencies` | `youmi/coordinator/plan.py:394-411` | The dependency loop proceeds if and only if nothing stops the step, and otherwise names the first entry that does, missing or, with fail_fast, failed or skipped |
| `Executor.WorkflowExecutor.ExecuteLayerSerial` | `youmi/coordinator/plan.py:371-374` | A layer run one step after the other ends with every step of the layer done and everything outside it unchanged |
| `Executor.WorkflowExecutor.ExecuteLayerParallel` | `youmi/coordinator/plan.py:376-382` | The same for an arbitrary interleaving of the coroutines of the layer |
| `Executor.WorkflowExecutor.Execute` | `youmi/coordinator/plan.py:322-369` | `execute` refuses exactly the invalid plans, with the stored results untouched, and otherwise returns the unique solution of the plan, every record accounted for by attempts and dependencies (status, error and task result) |
| `GatewayHistory.GatewayFromHistory` | `youmi/gateway/worker.py:83-152` | Over every run of submit, worker loop, stop, subscribe, stream and aclose all invariants hold, and queue, workers, who holds which task, the credit, every record, every event log and every stream are those the actions alone call for |
| `GatewayHistory.FinishRecordsOutcome` | `youmi/gateway/worker.py:136-147` | Finishing a task records what the executor returned: COMPLETED if it reports no error and FAILED otherwise, with its output, its error and the worker |
| `GatewayHistory.FinishedCarriesOutcome` | `youmi/gateway/worker.py:125-152` | In every reachable state each finished record, and the last of the three events of its log, carry the outcome returned to the worker that held the task |
| `GatewayHistory.ReachedByActions` | `youmi/gateway/service.py:93-138` | Every reachable state is reached by a sequence of actions each possible when taken, so what holds after every such sequence holds in every reachable state |
| `GatewayProtocol.QueueOrder` | `youmi/gateway/events.py:59-83` | The inductive account of a subscriber queue means: its items are exactly the events due after those received, in order, followed by the end marker exactly when the task is done |
| `GatewayGuarantees.TasksConserved` | `youmi/gateway/worker.py:109-147` | Submitted tasks are the disjoint union of queued, held by exactly one worker, finished, and abandoned by a cancelled worker; the counts add up |
| `GatewayGuarantees.DrainedMeansIdle` | `youmi/gateway/worker.py:83-123` | The unfinished credit behind `queue.join` is zero if and only if no task is queued or held |
| `GatewayGuarantees.StartsAreFifo` | `youmi/gateway/worker.py:109-123` | Tasks are started in submission order and the queue is the unstarted rest |
| `GatewayGuarantees.StatusMovesForward` | `youmi/gateway/worker.py:125-147` | Every step leaves a status alone or moves it QUEUED to RUNNING to COMPLETED or FAILED, by whether the outcome has an error; CANCELLED is never reached |
| `GatewayGuarantees.StreamDelivers` | `youmi/gateway/events.py:44-94` | A stream that ended and was not aclosed yielded exactly the events published for its task since it subscribed, in order, ending with the terminal snapshot |
| `GatewayGuarantees.StreamComplete` | `youmi/gateway/events.py:59-83` | At every point of an open stream, received plus queued events are what was published since it subscribed |
| `GatewayGuarantees.NoReaderHangs` | `youmi/gateway/events.py:49-83` | A stream with nothing to read belongs to an unfinished task and is still subscribed to it |
| `GatewayGuarantees.ClosedIffFinished` | `youmi/gateway/events.py:49-57` | A task is in the closed set if and only if its record is finished |
| `GatewayGuarantees.SseNeverHangs` | `youmi/gateway/api.py:192-204` | A late client of a finished task gets the final snapshot or an already ended stream |
| `GatewayGuarantees.SseReplaysRetained` | `youmi/gateway/api.py:192-204` | The final snapshot is replayed exactly for finished tasks that are still registered |
| `GatewayGuarantees.RegistryBounded` | `youmi/gateway/registry.py:34-50` | With max_records > 0 the registry holds at most the larger of max_records and the number of unfinished records, loses no unfinished one and keeps submission order, although workers change the stored records in place |
| `GatewayModel.EvictOldestFinished` | `youmi/gateway/registry.py:39-50` | Eviction removes exactly the oldest finished records: there is a cut before which precisely the finished ones are gone and after which nothing is touched, and it removes as many as the overflow asks for, if there are so many |
| `GatewayModel.PutExact` | `youmi/gateway/registry.py:34-50` | After a put: a new key last, an old one in its place, and the oldest finished records gone, as many as the registry is too long or all there are |
| `GatewayModel.PutBounded` | `youmi/gateway/registry.py:34-50` | After a put the registry is within its maximum or holds unfinished records only |
| `GatewayModel.EvictMembers` | `youmi/gateway/registry.py:39-50` | No unfinished record is evicted and none appears |
| `GatewayObjects.TaskRegistry.Put` | `youmi/gateway/registry.py:34-37` | The object with shared mutable records: its key order becomes the specified one, finished status being read from the records at that moment |
| `GatewayObjects.TaskRegistry.EvictKeys` | `youmi/gateway/registry.py:39-50` | The eviction loop computes the specified order and drops exactly the evicted keys |
| `GatewayObjects.TaskEventHub.Publish` | `youmi/gateway/events.py:44-47` | Exactly the current subscribers of the task get the event at the end of their queues |
| `GatewayObjects.TaskEventHub.Close` | `youmi/gateway/events.py:49-57` | Closing marks the task, ends every subscriber queue and forgets the subscribers |
| `GatewayObjects.TaskEventHub.Subscribe` | `youmi/gateway/events.py:59-83` | A closed task yields no queue; otherwise a new empty queue is registered last |
| `GatewayObjects.TaskEventHub.Receive` | `youmi/gateway/events.py:73-83` | One turn of the generator: the head item, and for the end marker the subscription is removed |
| `BreakerLaws.Transitions` | `youmi/core/resilience.py:142-216` | Every change of state, over every run: from CLOSED to OPEN exactly at a failure that completes failure_threshold failures in a row; from HALF_OPEN to OPEN at a recorded failure and to CLOSED at a recorded success; from OPEN to HALF_OPEN exactly at a start recovery_timeout_s after the last trip; nothing else |
| `BreakerLaws.TripEndsFailures` | `youmi/core/resilience.py:193-216` | A trip from CLOSED ends exactly failure_threshold recorded failures in a row |
| `BreakerLaws.RunRecords` | `youmi/core/resilience.py:175-216` | Over every run the totals count the recorded successes and failures, the failure count is the failures since the last success that were no probes, and the trips are those of failed probes and of counts that reach the threshold |
| `BreakerLaws.RefusedExactly` | `youmi/core/resilience.py:142-173` | A start is refused exactly while OPEN before the recovery time is over, with the time left, or while HALF_OPEN with all slots taken |
| `BreakerLaws.RefusalsCounted` | `youmi/core/resilience.py:142-191` | Every refusal is counted, and so is every successful probe of the episode |
| `BreakerLaws.RunEpisodes` | `youmi/core/resilience.py:142-242` | The episodes, the calls in flight with the episode they were admitted in, and the tallies of cancelled probes and nested rejections used by the slot law are those of the calls of the run |
| `Breaker.ClosedCountExact` | `youmi/core/resilience.py:175-207` | While CLOSED the failure count equals the failures recorded since the last success and is below the threshold |
| `Breaker.NoAdmissionAfterTrip` | `youmi/core/resilience.py:142-173` | No call is admitted within recovery_timeout_s of any earlier trip |
| `Breaker.EpisodeBounded` | `youmi/core/resilience.py:160-242` | Admissions of a HALF_OPEN episode are at most half_open_max_calls plus the nested rejections seen in it |
| `Breaker.SlotsAccounted` | `youmi/core/resilience.py:160-242` | While HALF_OPEN the slots in use, apart from those given back by nested rejections of calls from outside the episode, are exactly the calls of the episode in flight and those that were cancelled |
| `Breaker.AdmittedIffSlotLeft` | `youmi/core/resilience.py:142-242` | A call made at least recovery_timeout_s after the last trip is admitted if and only if the breaker is not HALF_OPEN or calls in flight plus cancelled calls of this episode leave a slot; cancellations in earlier states or episodes do no harm |
| `Breaker.RejectsForEverIffSlotsLost` | `youmi/core/resilience.py:142-242` | With nothing in flight the breaker rejects every call of every continuation of the run if and only if it is HALF_OPEN and the cancelled calls of this episode hold every slot |
| `Breaker.FinishedCallsFreeTheBreaker` | `youmi/core/tool_executor.py:144-210` | Once the calls of the current episode, if the breaker is HALF_OPEN, have finished without a cancellation, a call made at least recovery_timeout_s after the last trip is admitted |
| `Breaker.CancelledProbeWedges` | `youmi/core/resilience.py:218-242` | A concrete run, one probe cancelled in HALF_OPEN, whose every continuation rejects every call although nothing is in flight |
| `Breaker.FullHalfOpenWedges` | `youmi/core/resilience.py:160-173` | A HALF_OPEN breaker whose slots are all taken rejects every call while nothing is recorded |
| `Breaker.CircuitBreaker.Before` | `youmi/core/resilience.py:142-173` | The object admits and changes exactly as specified |
| `Breaker.CircuitBreaker.OnFailure` | `youmi/core/resilience.py:193-207` | The object records a failure exactly as specified, half-open slot release and trip included |
| `Breaker.CircuitBreaker.OnSuccess` | `youmi/core/resilience.py:175-191` | The object records a success exactly as specified |
| `Breaker.ExecuteTool` | `youmi/core/tool_executor.py:144-210` | A sequential client records exactly once per admitted dispatch, in every outcome, and never leaves the breaker HALF_OPEN after an admitted call |
| `Retry.DelayMonotone` | `youmi/core/resilience.py:354-381` | Backoff delays are nonnegative, never shrink with the attempt and never exceed the cap, for every strategy |
| `Retry.DelayValues` | `youmi/core/resilience.py:369-376` | The delays themselves: the base, the base times the attempt, or starting with the base, each cut at the cap |
| `Retry.ExponentialDoubles` | `youmi/core/resilience.py:369-376` | Under exponential backoff each delay is twice the one before until it meets the cap |
| `Retry.JitterWithinCapIff` | `youmi/core/resilience.py:354-381` | The documented maximum delay holds for every random draw if and only if no jitter is asked for or the largest draw still fits under the cap, since jitter is added after the cap |
| `Retry.JitterExceedsCap` | `youmi/core/resilience.py:364-381` | A concrete policy: a fixed delay of one second capped at one second waits 1.5 seconds under jitter 0.5 and the largest draw |
| `Retry.RetryAsync` | `youmi/core/resilience.py:390-443` | The operation is called until its first success, its first non-retryable failure or max_retries + 1 times; the last outcome is the answer; between calls exactly the policy delays are waited, in total at most the cap times their number |
| `BlockScanner.ExtractJsonBlock` | `experiments/fake_llm.py:74-100` | The index loop with `depth`, `in_str` and `esc` computes the specified first block, or the specified error |
| `BlockScanner.ScanMeaning` | `experiments/fake_llm.py:74-100` | It returns a block if and only if, from the first opening brace on, the text starts with a string-aware balanced block, and then returns that block |
| `BlockScanner.BlockRecovered` | `experiments/fake_llm.py:74-100` | A balanced block is returned exactly, whatever brace-free text precedes and whatever text follows it |
| `BlockScanner.BlocksPrefixFree` | `experiments/fake_llm.py:74-100` | No proper prefix of a block is a block, so the block returned is the shortest |
| `JsonText.ObjectRecovered` | `experiments/fake_llm.py:74-100` | Any JSON object text, with arbitrary whitespace, nesting, string escapes and braces inside strings, is returned exactly from between brace-free noise and any suffix |
| `JsonText.ObjectIsBlock` | `experiments/fake_llm.py:74-100` | Every object text of the grammar of sections 4 and 7 of RFC 8259 is a balanced block |
| `GuardianRounds.LiveRunInv` | `youmi/coordinator/tool_guardian.py:281-337` | After every sequence of steps, with reports arriving between the awaits of any number of concurrent rounds and with repairs that raise, each received report is in exactly one of pending, in the hands of a round, fixed, escalated, unknown-tool and lost; attempts stay in 1..2 and equal the unchanged attempts since the last effective fix or escalation; every escalation follows exactly three |
| `GuardianRounds.BeginTakesOldest` | `youmi/coordinator/tool_guardian.py:318-327` | A round takes the oldest reports, as many as asked for or all there are; a negative number leaves that many of the newest |
| `GuardianRounds.EscapeLoses` | `youmi/coordinator/tool_guardian.py:307-337` | An exception that escapes a repair loses exactly the reports of its round not yet dealt with, those of the failing tool among them and at least one, and nothing else changes |
| `GuardianRounds.LosesIffEscape` | `youmi/coordinator/tool_guardian.py:281-337` | A possible step loses a report if and only if an exception escapes in it: arrivals, rounds begun and tools settled lose nothing |
| `GuardianRounds.NothingLostIffNoEscape` | `youmi/coordinator/tool_guardian.py:281-337` | Over every run, with any interleaving of arrivals and rounds, no report is lost if and only if no repair raises |
| `GuardianRounds.EscapeRun` | `youmi/coordinator/tool_guardian.py:281-337` | A concrete run: the first report arrives, its round begins, the repair raises, and the report is lost |
| `GuardianRounds.WorkBringsCloser` | `youmi/coordinator/tool_guardian.py:307-337` | Whatever the interleaving, beginning a round of at least one report, settling a tool and an escaping exception each lower, lexicographically, the reports queued or in hand, their attempts left, and the reports queued |
| `GuardianRounds.LiveDrains` | `youmi/coordinator/tool_guardian.py:307-337` | Once reports stop arriving, any scheduler that works while there is work ends, with nothing pending or in hand: every received report is then fixed, escalated, of an unknown tool or lost |
| `GuardianRounds.WholeRound` | `youmi/coordinator/tool_guardian.py:307-337` | A round begun and carried through with nothing in between ends in the state of one call of process_reports, has dealt with all its tools, loses nothing and leaves the other rounds alone |
| `Guardian.ProcessDecreases` | `youmi/coordinator/tool_guardian.py:307-337` | With batch_size >= 1 a round on a non-empty queue shortens it, or keeps its length and uses up attempts |
| `Guardian.QueueDrains` | `youmi/coordinator/tool_guardian.py:307-337` | With no new reports, repeated rounds empty the queue for every sequence of outcomes |
| `Guardian.GroupKeepsAttempts` | `youmi/coordinator/tool_guardian.py:451-489` | Settling, requeueing or escalating one tool keeps the attempt invariant |
| `Guardian.OutcomeSorts` | `youmi/coordinator/tool_guardian.py:376-489` | Reports end as fixed exactly through an effective repair, which clears the attempts of the tool, and as unknown exactly for a missing tool; no other tool is touched |
| `Guardian.ThirdAttemptEscalates` | `youmi/coordinator/tool_guardian.py:451-489` | The third unchanged attempt on a tool escalates its reports and starts over, the first two put them back at the end of the queue |
| `Guardian.GroupReports` | `youmi/coordinator/tool_guardian.py:324-327` | The grouping dictionary has the tools of the batch in the order in which they are first reported, each with its reports |
| `Guardian.OfInOrder` | `youmi/coordinator/tool_guardian.py:324-327` | The reports of a tool keep their order: each stands behind as many as were reported for the tool before it |
| `Guardian.ToolGuardian.ReceiveReport` | `youmi/coordinator/tool_guardian.py:281-288` | The object appends the report to the end of the queue and to the history of its tool |
| `Guardian.ToolGuardian.Process` | `youmi/coordinator/tool_guardian.py:307-337` | The object, which slices, groups, settles and extends in place, moves as specified |
| `Guardian.ToolGuardian.Settle` | `youmi/coordinator/tool_guardian.py:376-489` | The tail of processing one tool: effective fix, retry with the reports requeued, or escalation at the third attempt |
| `BrokerHistory.BusFromHistory` | `youmi/bus/broker.py:141-259` | Over every run, orderly or not, tenants, queue owners, memberships, subscriptions, listed workflows, queues, pending acknowledgements and the counter are those the actions alone call for: an agent has the tenant of its last subscription, its queue holds what was sent to its tenant and meant for it and what it has not taken |
| `BrokerHistory.NothingStrays` | `youmi/bus/broker.py:180-324` | Whatever reaches an agent was sent while the agent had the tenant of the message, and to it or to an audience it was in |
| `BrokerHistory.Audience` | `youmi/bus/broker.py:299-324` | The target list is, among agents with a queue, exactly the audience the history of subscriptions gives |
| `BrokerHistory.ReceivesInOrder` | `youmi/bus/broker.py:215-234` | A receive hands out the oldest message sent to the agent and not yet taken |
| `BrokerHistory.OrderlyRunExact` | `youmi/bus/broker.py:141-259` | Over every run in which agents join issued ids only and message ids are fresh: both membership maps are inverse, the dictionaries have the same owners, queued ids are distinct, and what each agent has received and what is queued for it make up exactly what was sent to it, in order |
| `BrokerRuns.TrackedIffHarmless` | `youmi/bus/broker.py:180-259` | Over such a run every queued message that needs it keeps its pending acknowledgement in every state if and only if no tracked delivery and no explicit acknowledgement hits the key of a queued message |
| `BrokerRuns.EntriesKeptIffHarmless` | `youmi/bus/broker.py:180-259` | Step by step: the entries of all queued messages survive a step if and only if it hits the key of none of them |
| `BrokerRuns.ColonFreeTracked` | `youmi/bus/broker.py:180-259` | With ids without a colon, and nobody acknowledging what is still in the own queue, no entry is ever lost |
| `BrokerRuns.ColonRunLosesEntry` | `youmi/bus/broker.py:180-251` | A concrete run with fresh ids "a:b" and "a": two deliveries share a key, and receiving one deletes the entry of the other, which is still queued |
| `Broker.CreateKeepsInverseIff` | `youmi/bus/broker.py:253-259` | Issuing a workflow id keeps the maps inverse if and only if nobody had joined that id before |
| `Broker.JoiningAheadBreaksInverse` | `youmi/bus/broker.py:141-259` | A concrete run in which an agent that joins ahead is subscribed without being a member |
| `Broker.WorkflowIdsDistinct` | `youmi/bus/broker.py:253-259` | The zero-padded workflow ids of different counter values differ |
| `Broker.SubscribeKeepsInverse` | `youmi/bus/broker.py:141-162` | Subscribing keeps the membership maps inverse |
| `Broker.UnsubscribeKeepsInverse` | `youmi/bus/broker.py:164-178` | Unsubscribing keeps them inverse and leaves the agent in no workflow |
| `BrokerRuns.KeyInjective` | `youmi/bus/broker.py:200-213` | Acknowledgement keys of different (message, agent) pairs differ when message ids contain no colon |
| `BrokerObject.InProcessBroker.Join` | `youmi/bus/broker.py:141-162` | The object updates queues, subscriptions and members as specified and stores the given tenant, the default one for an empty text |
| `BrokerObject.InProcessBroker.Leave` | `youmi/bus/broker.py:164-178` | The loop over the left workflows removes the agent everywhere and deletes emptied workflows |
| `BrokerObject.InProcessBroker.Send` | `youmi/bus/broker.py:180-213` | The delivery loop reaches all targets, in any order, with the same result |
| `BrokerObject.InProcessBroker.WaitForMessage` | `youmi/bus/broker.py:215-234` | The head of the queue is taken and acknowledged; an unknown agent or an empty queue changes nothing |
| `BrokerObject.InProcessBroker.PendingMessages` | `youmi/bus/broker.py:236-245` | Everything queued is returned in order and the queue emptied, acknowledgements untouched |
| `Vectors.CosineInRange` | `youmi/_vec_utils.py:131-150` | Cauchy-Schwarz: the cosine of any two vectors lies in [-1, 1] |
| `Vectors.KnnScoreExactIff` | `youmi/_vec_utils.py:64-150` | For equal dimensions `l2_to_cosine` of the distance of the normalized vectors equals the cosine if and only if neither vector is zero |
| `Vectors.ZeroVectorScores` | `youmi/_vec_utils.py:64-150` | A concrete pair: the zero vector and a unit vector score 1/2 on the distance path and 0 on the cosine path |
| `Vectors.DistanceFilterExactIff` | `youmi/_vec_utils.py:83-115` | A score threshold turned by `cosine_to_l2` into a bound on the distance selects exactly the rows whose score meets it if and only if the threshold is at most 1 |
| `Vectors.NormalizedUnit` | `youmi/_vec_utils.py:64-80` | A normalized nonzero vector has length one |
| `SearchAgreement.IndexAgreesIff` | `youmi/coordinator/plan_memory.py:340-373` | For any answer of the index to a query for k rows, ranking it gives the scores, and up to ties the plans, that ranking all rows gives if and only if it contains top_k hits or all hits there are |
| `SearchExactness.EveryAnswerAgreesIff` | `youmi/coordinator/plan_memory.py:340-373` | A condition on table and query: ranking gives what ranking all rows gives for every answer the index may return to a query for k rows if and only if the table has at most k rows or the hits needed, together with the rows at least as near that are no hits, fit into k |
| `SearchExactness.ScanAgreesIff` | `youmi/coordinator/plan_memory.py:375-411` | For tables of any size the scan, which loads 200 successful plans, gives the scores, and up to ties the plans, of ranking the whole table if and only if every hit it does not load is matched by top_k loaded hits that score at least as high |
| `SearchExactness.ScanMissesBest` | `youmi/coordinator/plan_memory.py:375-411` | A concrete table shape: 200 equal successes in front of a better one; for top_k = 1 the scan does not return what ranking the table does |
| `SearchExactness.SearchesAlwaysAgreeIff` | `youmi/coordinator/plan_memory.py:340-411` | When the scan is exact, as it is while the successes fit into it, and no vector is zero: whatever the index answers, the two searches agree up to ties if and only if the hits needed are within reach of its 3 * top_k rows |
| `SearchExactness.SearchPathsAgreeIff` | `youmi/coordinator/plan_memory.py:340-411` | When the scan is exact and no vector is zero, for each answer of the index the two searches return the same scores in the same order, and the same plans up to ties, if and only if that answer contains top_k hits or all there are |
| `SearchExactness.SearchPathsAgree` | `youmi/coordinator/plan_memory.py:340-411` | With an exact scan they agree for every query and threshold when all vectors fit into one index query or at most 2 * top_k rows are unsuccessful or unreadable; if nothing is cut off, the (plan, score) multisets are equal |
| `SearchAgreement.SearchPathsDiffer` | `youmi/coordinator/plan_memory.py:340-411` | A concrete table with three failures nearer than the one success: for top_k = 1 the index returns nothing, whatever its answer, and the scan returns the successful plan |
| `SearchAgreement.FailuresCrowdOutIndex` | `youmi/coordinator/plan_memory.py:347-362` | When the nearest rows are failures the index returns nothing, since it applies its limit before the success filter, and then it agrees with ranking all rows only if there is nothing to return |
| `PlanSearch.RankRows` | `youmi/coordinator/plan_memory.py:362-411` | Collect, threshold, sort in place and slice compute the specified ranking |
| `SearchExactness.RankedMeaning` | `youmi/coordinator/plan_memory.py:362-411` | A ranking lists results of successful readable rows at or above the threshold, by falling score, as many as asked for or as there are, and what it leaves out scores no higher than what it lists |
| `SearchExactness.LoadsTwoHundred` | `youmi/coordinator/plan_memory.py:380-388` | The scan loads the first 200 successes, or all there are |
| `Sorting.SortSorts` | `youmi/coordinator/plan_memory.py:372-373` | The ranking sort yields an ordered permutation |
| `Sorting.SortStable` | `youmi/coordinator/plan_memory.py:410-411` | The sort is stable: equal keys keep their input order |
| `PlanSearch.TableExact` | `youmi/coordinator/plan_memory.py:212-235` | After any history of saves there is one row per fingerprint, counting its saves and holding plan and success of the last one, with distinct plan ids |
| `PlanSearch.PlanTable.SavePlan` | `youmi/coordinator/plan_memory.py:212-235` | Saving updates the row of the fingerprint, keeping its id, or appends one |
| `Planner.SignatureDecidesValidity` | `youmi/coordinator/planner.py:32-41` | Plans with the same skeleton signature are both valid or both invalid, whatever the order of their steps and dependency lists |
| `Planner.SignatureDecidesLayering` | `youmi/coordinator/planner.py:32-41` | ... and have the same layerings |
| `Planner.AdaptationKeepsStructure` | `youmi/coordinator/planner.py:245-298` | A plan that differs from its template in task texts only has the same signature, validity and execution order, list for list |
| `Planner.ApplyReply` | `youmi/coordinator/planner.py:278-298` | Whatever plan the model replies, only task texts change: position by position the first 500 characters of the reply's nonempty text, else of the template's own |
| `Planner.ApplyWithoutClient` | `youmi/coordinator/planner.py:266-276` | Without a client only the first step's text changes, to the first 500 characters of the user's task |
| `Planner.PlanFromModel` | `youmi/coordinator/planner.py:199-239` | The retry loop returns the first acceptable reply, or fails after max_retries + 1 requests none of which was acceptable |
| `Planner.PlanFromTemplate` | `youmi/coordinator/planner.py:141-181` | The fast path yields a plan if and only if the template is valid and its adaptation request, if there is a client, is answered by a plan |
| `Planner.GeneratePlan` | `youmi/coordinator/planner.py:124-193` | Only valid plans are returned, from memory exactly when the template serves, with at most one adaptation and max_retries + 1 generation requests; the errors arise exactly without a client or after all attempts failed |
| `RuleRepair.RepairIdempotent` | `youmi/coordinator/fix_strategies.py:272-282` | Repairing again with the same parts leaves the description unchanged |
| `RuleRepair.RepairCovers` | `youmi/coordinator/fix_strategies.py:272-282` | The old description is a prefix of the new one, and every nonblank part occurs in it |
| `RuleRepair.UnchangedIffNothingFresh` | `youmi/coordinator/fix_strategies.py:272-282` | A repair changes nothing if and only if every part is blank or already contained |
| `RuleRepair.GenerateFixWithRules` | `youmi/coordinator/fix_strategies.py:187-282` | The description built by branches and loops is the specified one, has the old one as prefix, contains every part and is a fixed point of the same repair |
| `RuleRepair.ErrorsQuoted` | `youmi/coordinator/fix_strategies.py:210-254` | Every issue type but OTHER quotes the error of each of the first three reports, the boundary type its arguments as well; OTHER adds nothing |
| `RuleRepair.OnlyFirstErrorsQuoted` | `youmi/coordinator/fix_strategies.py:214-254` | Under a heading nothing but errors of the first three reports is quoted, each text once |
| `RuleRepair.SuggestionsQuoted` | `youmi/coordinator/fix_strategies.py:206-221` | For unclear descriptions the first two nonempty suggestions are quoted, each one that a report gave |
| `RuleRepair.KnowledgeMentioned` | `youmi/coordinator/fix_strategies.py:256-267` | Afterwards each of the first three known issues is mentioned by its first 60 characters, and nothing is added if and only if all of them were mentioned before |
| `RuleRepair.OtherListingAppendsAgain` | `youmi/coordinator/fix_strategies.py:238-242` | Idempotence needs a stable set order: with the error set iterated in another order the same two reports are appended a second time |
| `Text.JoinSplit` | `youmi/core/versioning.py:99-99` | Joining inverts splitting at a separator |
| `Text.StripExact` | `youmi/core/prompt.py:267-273` | Stripping takes off all whitespace at both ends and nothing else |
| `Versioning.ParsePrint` | `youmi/core/versioning.py:95-108` | Parsing inverts the printer used by `bump_for`, for all triples |
| `Versioning.PrintParse` | `youmi/core/versioning.py:95-108` | A legal version text prints back unchanged if and only if it has no surrounding whitespace and no leading zeros |
| `Versioning.ResolvedVersion` | `youmi/core/versioning.py:153-169` | The initial version is always legal, and stable exactly for a stable declaration or an external tool that declares none, an illegal one or the placeholder |
| `Versioning.ResolvedExactly` | `youmi/core/versioning.py:153-169` | A legal declaration is taken as it is, except 0.0.1 for an external tool; otherwise external tools start at 1.0.0 and generated ones at 0.0.1 |
| `Versioning.BumpIncreases` | `youmi/core/versioning.py:204-224` | Every bump of any text is legal, strictly greater and in the same stage |
| `Versioning.BumpValues` | `youmi/core/versioning.py:204-224` | The numbers after each kind of bump, of stable tools, candidates and illegal versions |
| `Versioning.BumpsAreGraded` | `youmi/core/versioning.py:197-224` | A feature bump exceeds a fix bump; a breaking bump exceeds a feature bump if and only if the version is stable |
| `Versioning.VersionsIncrease` | `youmi/core/versioning.py:204-224` | Along any sequence of changes versions strictly increase, pairwise, and the stage never changes |
| `Decimal.ValuePrint` | `youmi/core/versioning.py:95-108` | A numeral prints back as it was read if and only if it has no leading zero |
| `Promotion.FailuresRecovered` | `youmi/coordinator/post_task.py:550-554` | The failure count is recovered exactly from usage and success rate |
| `Promotion.ClassifyMeaning` | `youmi/coordinator/post_task.py:240-257` | A result counts as a failure if and only if it is an object with an error field or an array or text in which "error" is found; what the error value is decides whether it is kept, raises or fails the lookup |
| `Promotion.CountsTwiceMeaning` | `youmi/coordinator/post_task.py:240-257` | Exactly which failures are counted twice and which lists are stored: those that arrive while fewer than three texts and lists of the tool are stored |
| `Promotion.CollectToolExperiences` | `youmi/coordinator/post_task.py:200-269` | One experience per tool that was called: its failures are recovered exactly, its usage is the number of calls plus the number of failures counted twice. The collection fails if and only if an error value that is a list was stored |
| `Promotion.CountedOnceIff` | `youmi/coordinator/post_task.py:240-257` | Usage equals the number of calls if and only if no failure of the tool is a match inside a text or list, and none with an unsliceable error value arrives while fewer than three error values are stored |
| `Promotion.OnlyFailuresCountTwice` | `youmi/coordinator/post_task.py:240-257` | At most the failures are counted twice, so a tool without failures has its exact number of calls |
| `Promotion.NullErrorCountsTwice` | `youmi/coordinator/post_task.py:240-257` | The result `{"error": null}` is one failed call but counts as a failure and as a success |
| `Promotion.CountMessage` | `youmi/coordinator/post_task.py:240-257` | The counter updates, in the order of the source with its exception handler, keep the statistics of the tool equal to what its messages amount to |
| `Promotion.SinceMeaning` | `youmi/coordinator/post_task.py:555-562` | The success count sums the usage over the stretch since the last failing batch or promotion of the tool |
| `Promotion.AttemptIsEarned` | `youmi/coordinator/post_task.py:555-572` | A promotion is attempted only after a passed test and a usage of at least three in a stretch without failing batch since the last failure or promotion |
| `Promotion.AttemptIffEarned` | `youmi/coordinator/post_task.py:550-572` | ... and exactly then: an attempt is made if and only if the test passed, the batch has no failure and the stretch has a usage of three |
| `Promotion.PromotionTracker.Process` | `youmi/coordinator/post_task.py:550-595` | One experience updates the count of its tool only; the gate holds exactly (an attempt is made if and only if threshold, zero failures and test are met) |
| `Promotion.PromotionTracker.UpdateToolVersions` | `youmi/coordinator/post_task.py:529-596` | A round records exactly the experiences with calls, in order and with the answers given to them, keeps the gate over the whole history, and returns for each tool the id of its last promotion in the round, and no other tool |
| `PromptAssembly.PromptAssembler.Cutback` | `youmi/core/prompt.py:219-265` | Over budget the survivors are every layer of priority 0, the longest prefix of the others that fits, at most one cut layer, then none |
| `PromptAssembly.SurvivorsUnique` | `youmi/core/prompt.py:219-265` | This determines the survivors completely |
| `PromptAssembly.ChargeBounded` | `youmi/core/prompt.py:219-265` | The charged tokens are at most max_tokens or exactly the priority-0 total; when a layer is cut they are exactly max_tokens |
| `PromptAssembly.PromptAssembler.Assemble` | `youmi/core/prompt.py:180-274` | The prompt joins the chosen layers and contains the text of every priority-0 layer whole, and of every layer if they fit |
| `PromptAssembly.LayersSorted` | `youmi/core/prompt.py:200-200` | Layers are taken by rising priority number, equal ones as they were added |
| `PromptAssembly.EstimateMeaning` | `youmi/core/prompt.py:38-68` | A token is two, three or four characters, by whether more than half or more than a tenth of them are Chinese; a nonempty text has at least one |
| `PromptAssembly.CutKeepsBeginning` | `youmi/core/prompt.py:243-259` | A cut layer keeps the beginning of its text, the share of its tokens that fits, rounded down, and the mark |
| `PromptAssembly.JoinLayers` | `youmi/core/prompt.py:267-273` | Every nonblank layer text appears in the joined prompt |
| `PromptAssembly.VisibleInOrder` | `youmi/core/prompt.py:267-273` | The joined texts are the stripped texts of the nonblank layers, each at the place it has among these |
| `PromptAssembly.PromptAssembler.AddLayer` | `youmi/core/prompt.py:149-156` | A layer replaces the one of the same name and goes last; names stay distinct |
| `PromptAssembly.PromptAssembler.RemoveLayer` | `youmi/core/prompt.py:158-166` | Exactly the layer of that name is removed, and the answer says whether there was one |

## Left out

- Cancellation of a running workflow: a cancelled coroutine can leave a step RUNNING; steps here always run to their next await.
- Agent creation, callbacks, timestamps, agent ids, durations and backoff sleeps of workflow steps: an attempt is one oracle outcome (returned, timed out, raised).
- Execution.RunsAgree: an outcome is fixed per step and attempt, so agents whose answers depend on the schedule itself are not covered.
- CycleDetection.Validate: error messages are tagged values, not the formatted texts.
- Bounded gateway queues, `list`, `stats` and `get` of the registry, tenants of gateway tasks, the drain timeout of `stop`, and reuse of a task id.
- GatewayProtocol.Apply: the executor behind a task is one outcome per task; what it does while it runs is not modelled.
- `CircuitBreaker.reset`, the breaker registry and the exact message of `CircuitOpenError`.
- Retry.RetryAsync: exact reals; the sleep, the retry callback and the exception classes behind "retryable" are left out or an oracle.
- BlockScanner: text is a sequence of characters, without surrogate pairs or encodings.
- JsonText.ObjectRecovered: proved for more than RFC 8259 allows, since a number is any text over the number characters.
- The repair, evidence, version commit and notification steps inside a guardian round: a repair is one of unknown tool, changed, unchanged and, in `GuardianRounds`, raising before it is settled.
- Guardian.ToolGuardian.Process: one call in one go whose repairs do not raise; interleaved rounds, arrivals and escaping exceptions are covered by `GuardianRounds`.
- Message callbacks, timeouts and the event-loop wait of `wait_for_message` in the broker.
- Vectors, PlanSearch, SearchAgreement and SearchExactness: exact reals instead of floats, with norms and distances characterised as nonnegative roots; SQL, embedding calls and undecodable vectors are left out, as is the keyword fallback.
- PlanSearch.PlanTable.SavePlan: random plan ids are modelled as fresh numbers, fingerprints as strings without collisions, timestamps are dropped.
- Planner: the model's answer is an already parsed plan or a failure; prompt texts, JSON extraction from markdown and metadata other than source and skeleton are left out.
- Planner.SignatureDecidesValidity: the sorted signature tuple is modelled as the multiset it sorts, which has the same equality.
- RuleRepair.GenerateFixWithRules: the code suggestion and the always empty parameter updates are left out; the iteration order of a Python set is a parameter.
- Versioning.ParsePrint: numbers are plain ASCII digits; the leniency of `int()` (signs, underscores, inner spaces, other digits) is left out.
- Promotion: the texts of success and failure patterns and the built-in structural test of a candidate are left out; a store without promotion does nothing. An error value that is an object counts as unsliceable by a TypeError, as in Python before 3.12.
- SearchExactness.SearchesAlwaysAgreeIff: where the scan itself misses a better plan (`ScanAgreesIff`), the index is compared with ranking the table (`EveryAnswerAgreesIff`) and not with the scan.
- PromptAssembly: `from_system_prompt`, `get_layer` and logging; the kept share of a cut layer is the exact floor instead of a float product. That the real token estimate of the prompt stays within the limit is not claimed: a layer budget is charged but not enforced, and the cut marker comes on top.
- Network servers and clients, storage, approval and audit, reports, GUI and evaluation code.
