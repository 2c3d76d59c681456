/** What clients of the gateway may rely on in every state of every run. */
module GatewayGuarantees {
  import opened Common
  import opened GatewayModel
  import opened GatewayProtocol

  ghost predicate Reachable(max: int, g: Gateway) {
    exists trace :: IsRun(max, trace) && trace[|trace| - 1] == g
  }

  lemma ReachableInv(max: int, g: Gateway)
    requires Reachable(max, g)
    ensures Inv(g)
  {
    var trace :| IsRun(max, trace) && trace[|trace| - 1] == g;
    RunInv(max, trace, |trace| - 1);
  }

  lemma {:induction false} RunMax(max: int, trace: seq<Gateway>, k: nat)
    requires IsRun(max, trace) && k < |trace|
    ensures trace[k].maxRecords == max
  {
    if k > 0 {
      RunMax(max, trace, k - 1);
      RunInv(max, trace, k - 1);
      assert Steps(trace[k - 1], trace[k]);
      var a :| Enabled(trace[k - 1], a) && trace[k] == Apply(trace[k - 1], a);
      ApplyKeepsInv(trace[k - 1], a);
    }
  }

  function Held(t: Tasks): set<string> {
    t.holder.Keys
  }

  /** Conservation: submitted tasks are the disjoint union of queued, held, finished and abandoned ones. */
  lemma TasksConserved(max: int, g: Gateway)
    requires Reachable(max, g)
    ensures Elements(g.tasks.submitted) ==
      Elements(g.tasks.queue) + (Held(g.tasks) + g.tasks.finished + g.tasks.abandoned)
    ensures Elements(g.tasks.queue) !! Held(g.tasks) !! g.tasks.finished !! g.tasks.abandoned
    ensures |g.tasks.submitted| == |g.tasks.queue| + |g.tasks.held| + |g.tasks.finished| + |g.tasks.abandoned|
  {
    ReachableInv(max, g);
    QueueDistinct(g.tasks);
    InverseSize(g.tasks.held, g.tasks.holder);
    PartitionSize(g.tasks);
    ConservedSets(g.tasks);
    DisjointQueue(g.tasks);
  }

  lemma ConservedSets(t: Tasks)
    requires t.submitted == t.started + t.queue && Elements(t.started) == Held(t) + t.finished + t.abandoned
    ensures Elements(t.submitted) == Elements(t.queue) + (Held(t) + t.finished + t.abandoned)
  {
    ElementsConcat(t.started, t.queue);
  }

  lemma ElementsConcat(a: seq<string>, b: seq<string>)
    ensures Elements(a + b) == Elements(b) + Elements(a)
  {
  }

  lemma DisjointQueue(t: Tasks)
    requires Partition(t.started, t.holder, t.finished, t.abandoned) && forall id :: id in t.queue ==> id !in t.started
    ensures Elements(t.queue) !! Held(t) !! t.finished !! t.abandoned
  {
  }

  lemma NoDuplicatesElements(s: seq<string>)
    requires NoDuplicates(s)
    ensures |Elements(s)| == |s|
  {
    DistinctCount(s);
  }

  lemma StartedParts(t: Tasks)
    requires Partition(t.started, t.holder, t.finished, t.abandoned)
    ensures Elements(t.started) == (Held(t) + t.finished) + t.abandoned
    ensures Held(t) !! t.finished && (Held(t) + t.finished) !! t.abandoned
  {
  }

  lemma UnionSize<T>(a: set<T>, b: set<T>, c: set<T>)
    requires a !! b && (a + b) !! c
    ensures |a + b + c| == |a| + |b| + |c|
  {
  }

  lemma PartitionSize(t: Tasks)
    requires HoldInv(t) && NoDuplicates(t.started)
    ensures Elements(t.started) == Held(t) + t.finished + t.abandoned
    ensures |t.started| == |Held(t)| + |t.finished| + |t.abandoned|
  {
    NoDuplicatesElements(t.started);
    StartedParts(t);
    UnionSize(Held(t), t.finished, t.abandoned);
  }

  lemma {:induction false} InverseSize(m: map<string, string>, n: map<string, string>)
    requires Inverse(m, n)
    ensures |m| == |n.Keys|
    decreases |m|
  {
    if m.Keys == {} {
      assert m == map[];
      assert n.Keys == {};
    } else {
      var w :| w in m;
      var x := m[w];
      var m', n' := m - {w}, n - {x};
      assert m'.Keys == m.Keys - {w} && n'.Keys == n.Keys - {x};
      InverseSize(m', n');
    }
  }

  /** The drain condition: queue.join returns exactly when no task is queued or held by a worker. */
  lemma DrainedMeansIdle(max: int, g: Gateway)
    requires Reachable(max, g)
    ensures g.tasks.credit >= 0
    ensures g.tasks.credit == 0 <==> g.tasks.queue == [] && g.tasks.held == map[]
    ensures g.tasks.credit == 0 ==> forall id :: id in g.tasks.submitted ==>
      id in g.tasks.finished || id in g.tasks.abandoned
  {
    ReachableInv(max, g);
    var t := g.tasks;
    assert |t.held| == 0 <==> t.held == map[];
    assert forall id :: id in t.holder ==> t.holder[id] in t.held;
  }

  /** Tasks are started in submission order. */
  lemma StartsAreFifo(max: int, g: Gateway)
    requires Reachable(max, g)
    ensures g.tasks.started <= g.tasks.submitted
    ensures g.tasks.queue == g.tasks.submitted[|g.tasks.started|..]
  {
    ReachableInv(max, g);
  }

  /** A status only ever moves from queued to running to completed or failed, as the outcome has no error or one. */
  lemma StatusMovesForward(max: int, g: Gateway, a: Action, id: string)
    requires Reachable(max, g) && Enabled(g, a)
    ensures StatusForward(RecordOf(g.tasks, id), RecordOf(Apply(g, a).tasks, id))
    ensures a.Finish? && g.tasks.held[a.worker] == id ==>
      RecordOf(Apply(g, a).tasks, id).value.status == if a.outcome.error == "" then Completed else Failed
  {
    ReachableInv(max, g);
    StatusStep(g, a, id);
  }

  predicate StatusForward(before: Option<Record>, after: Option<Record>) {
    after == before || (after.Some? && after.value.status != Cancelled && Follows(before, after.value.status))
  }

  lemma StatusStep(g: Gateway, a: Action, id: string)
    requires TaskInv(g.tasks) && Enabled(g, a)
    ensures StatusForward(RecordOf(g.tasks, id), RecordOf(Apply(g, a).tasks, id))
  {
    match a
    case Take(w) => Subject(g.tasks, w);
    case Finish(w, o) => Subject(g.tasks, w);
    case _ =>
  }

  /**
   * A stream that has ended delivered exactly what was published since it subscribed; unless it was opened on a task
   * that had already finished, the last event delivered is the terminal snapshot.
   */
  lemma StreamDelivers(max: int, g: Gateway, s: nat)
    requires Reachable(max, g) && s in g.streams && g.streams[s].ended && !g.streams[s].detached
    ensures g.streams[s].task in g.tasks.finished && g.streams[s].task in g.tasks.records
    ensures Delivered(g.tasks.records[g.streams[s].task], LogOf(g.log, g.streams[s].task), g.streams[s])
  {
    ReachableInv(max, g);
    Ended(g.tasks, g.log, g.hub, s, g.streams[s]);
  }

  ghost predicate Delivered(r: Record, log: seq<Event>, st: Stream) {
    && st.from <= |log| == 3
    && st.received == log[st.from..]
    && HasOutcome(r) && log[2] == Event(st.task, r)
    && (st.from < 3 ==> st.received != [] && st.received[|st.received| - 1] == Event(st.task, r))
  }

  lemma Ended(t: Tasks, log: map<string, seq<Event>>, hub: Hub<nat>, s: nat, st: Stream)
    requires StatusInv(t) && LogInv(t, log) && StreamFits(t.finished, log, hub, s, st) && st.ended && !st.detached
    ensures st.task in t.finished && st.task in t.records && Delivered(t.records[st.task], LogOf(log, st.task), st)
  {
    assert Life(st.task, t.records[st.task], LogOf(log, st.task));
  }

  /** While a stream is live, received plus queued events are what was published since it subscribed, in order. */
  lemma StreamComplete(max: int, g: Gateway, s: nat)
    requires Reachable(max, g) && Open(g, s)
    ensures s in g.hub.queues && Pending(g.hub.queues[s], g.streams[s].received, Due(g.log, g.streams[s]),
                                         g.streams[s].task in g.tasks.finished)
  {
    ReachableInv(max, g);
    LiveStream(g.tasks.finished, g.log, g.hub, s, g.streams[s]);
  }

  lemma LiveStream(finished: set<string>, log: map<string, seq<Event>>, hub: Hub<nat>, s: nat, st: Stream)
    requires StreamFits(finished, log, hub, s, st) && !st.ended && !st.detached
    ensures s in hub.queues && Pending(hub.queues[s], st.received, Due(log, st), st.task in finished)
  {
    QueueOrder(hub.queues[s], st.received, Due(log, st), st.task in finished);
  }

  ghost predicate Pending(queue: seq<Option<Event>>, received: seq<Event>, due: seq<Event>, done: bool) {
    && received <= due && |queue| == |due| - |received| + (if done then 1 else 0)
    && (forall i :: 0 <= i < |due| - |received| ==> queue[i] == Some(due[|received| + i]))
    && (done ==> queue[|queue| - 1] == None)
  }

  /** Nobody waits for a finished task: a reader with nothing to read is subscribed to an unfinished one. */
  lemma NoReaderHangs(max: int, g: Gateway, s: nat)
    requires Reachable(max, g) && Open(g, s) && s in g.hub.queues && g.hub.queues[s] == []
    ensures g.streams[s].task !in g.tasks.finished && s in Subscribers(g.hub, g.streams[s].task)
  {
    ReachableInv(max, g);
    assert StreamFits(g.tasks.finished, g.log, g.hub, s, g.streams[s]);
  }

  /** The hub has closed a task exactly when its record says it is finished. */
  lemma ClosedIffFinished(max: int, g: Gateway, id: string)
    requires Reachable(max, g)
    ensures id in g.hub.closed <==> id in g.tasks.records && g.tasks.records[id].status.Finished()
  {
    ReachableInv(max, g);
    FinishedStatus(g.tasks, id);
  }

  lemma FinishedStatus(t: Tasks, id: string)
    requires TaskInv(t)
    ensures id in t.finished <==> id in t.records && t.records[id].status.Finished()
  {
    if id in t.records {
      assert id in t.started + t.queue;
      assert id in t.queue || id in t.started;
    }
  }

  /** The event endpoint: replay the final snapshot of a finished task that is still registered, else subscribe. */
  datatype SseAnswer = Replay(event: Event) | Streaming(gateway: Gateway)

  function SseOpen(g: Gateway, id: string, s: nat): SseAnswer
    requires Enabled(g, Subscribe(id, s))
  {
    if id in g.registry && id in g.tasks.records && g.tasks.records[id].status.Finished() then
      Replay(Event(id, g.tasks.records[id]))
    else Streaming(Apply(g, Subscribe(id, s)))
  }

  /** A late client of a finished task gets the final snapshot or an empty stream that has already ended. */
  lemma SseNeverHangs(max: int, g: Gateway, id: string, s: nat)
    requires Reachable(max, g) && Enabled(g, Subscribe(id, s)) && id in g.tasks.finished
    ensures match SseOpen(g, id, s)
      case Replay(e) => id in g.log && |g.log[id]| == 3 && e == g.log[id][2]
      case Streaming(h) => id !in g.registry && h.streams[s].ended && h.streams[s].received == []
  {
    ReachableInv(max, g);
    ClosedIffFinished(max, g, id);
    assert Life(id, g.tasks.records[id], LogOf(g.log, id));
  }

  /** The final snapshot is replayed exactly for the finished tasks that are still registered; all others subscribe. */
  lemma SseReplaysRetained(max: int, g: Gateway, id: string, s: nat)
    requires Reachable(max, g) && Enabled(g, Subscribe(id, s))
    ensures SseOpen(g, id, s).Replay? <==> id in g.registry && id in g.tasks.finished
    ensures SseOpen(g, id, s).Streaming? ==> SseOpen(g, id, s).gateway == Apply(g, Subscribe(id, s))
  {
    ReachableInv(max, g);
    FinishedStatus(g.tasks, id);
  }

  function UnfinishedIds(t: Tasks): set<string> {
    set id | id in t.records && !t.records[id].status.Finished()
  }

  /**
   * Retention: with a positive maximum the registry never holds more than the larger of the maximum and the number of
   * unfinished records; it never loses an unfinished one and keeps submission order.
   */
  lemma RegistryBounded(max: int, g: Gateway)
    requires Reachable(max, g)
    ensures max > 0 ==> |g.registry| <= max || |g.registry| <= |UnfinishedIds(g.tasks)|
    ensures forall id :: id in UnfinishedIds(g.tasks) ==> id in g.registry
    ensures Subsequence(g.registry, g.tasks.submitted) && NoDuplicates(g.registry)
  {
    ReachableInv(max, g);
    var trace :| IsRun(max, trace) && trace[|trace| - 1] == g;
    RunMax(max, trace, |trace| - 1);
    SubsequenceDistinct(g.registry, g.tasks.submitted);
    if max > 0 && |g.registry| > max {
      NoDuplicatesElements(g.registry);
      SubsetCardinality(Elements(g.registry), UnfinishedIds(g.tasks));
    }
  }
}
