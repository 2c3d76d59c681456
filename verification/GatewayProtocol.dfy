/**
 * The task gateway as a step protocol (youmi/gateway): every action is one stretch of code between two awaits of
 * submit, the worker loop, pool stop, subscribe and the subscription generator.
 */
module GatewayProtocol {
  import opened Common
  import opened GatewayModel

  /** Records, queue and workers, with the history of the run. */
  datatype Tasks = Tasks(
    records: map<string, Record>,   // the shared record objects
    queue: seq<string>,
    credit: int,                    // unfinished count behind queue.join
    workers: set<string>,
    held: map<string, string>,      // worker -> task it awaits the executor for
    holder: map<string, string>,    // the same relation read from the tasks
    submitted: seq<string>, started: seq<string>, finished: set<string>, abandoned: set<string>)

  datatype Stream = Stream(task: string, from: nat, received: seq<Event>, ended: bool, detached: bool)

  datatype Gateway = Gateway(
    maxRecords: int,
    tasks: Tasks,
    registry: seq<string>,          // keys of the ordered dictionary
    log: map<string, seq<Event>>,   // events published per task
    hub: Hub<nat>,
    streams: map<nat, Stream>)

  datatype Action =
    | Submit(id: string)
    | StartWorker(worker: string)
    | Take(worker: string)
    | Finish(worker: string, outcome: TaskOutcome)
    | Cancel(worker: string)
    | Subscribe(id: string, stream: nat)
    | Receive(stream: nat)
    | Close(stream: nat, running: bool)  // aclose; running: the generator had been iterated

  predicate Enabled(g: Gateway, a: Action) {
    var t := g.tasks;
    match a
    case Submit(id) => id !in t.records
    case StartWorker(w) => w !in t.workers
    case Take(w) => w in t.workers && w !in t.held && t.queue != [] && t.queue[0] in t.records
    case Finish(w, _) => w in t.held && t.held[w] in t.records
    case Cancel(w) => w in t.workers
    case Subscribe(_, s) => s !in g.streams && s !in g.hub.queues
    case Receive(s) => Open(g, s) && s in g.hub.queues && g.hub.queues[s] != []
    case Close(s, running) => Open(g, s) && (g.streams[s].received != [] ==> running)
  }

  predicate Open(g: Gateway, s: nat) {
    s in g.streams && !g.streams[s].ended && !g.streams[s].detached
  }

  function FinishedIds(records: map<string, Record>): set<string> {
    set id | id in records && records[id].status.Finished()
  }

  function LogOf(log: map<string, seq<Event>>, id: string): seq<Event> {
    if id in log then log[id] else []
  }

  /** _publish: store the record in the registry and send its snapshot to the subscribers. */
  function Publish(g: Gateway, t: Tasks, id: string): Gateway
    requires id in t.records
  {
    var e := Event(id, t.records[id]);
    g.(tasks := t,
       registry := PutOrder(g.registry, FinishedIds(t.records), g.maxRecords, id),
       log := g.log[id := LogOf(g.log, id) + [e]],
       hub := HubPublish(g.hub, id, e))
  }

  function Terminal(r: Record, o: TaskOutcome): Record {
    r.(status := if o.Success() then Completed else Failed, result := o.output, error := o.error)
  }

  function AddTask(t: Tasks, id: string): Tasks {
    t.(records := t.records[id := Record(Queued, "", "", "")], queue := t.queue + [id], credit := t.credit + 1,
       submitted := t.submitted + [id])
  }

  function TakeTask(t: Tasks, w: string): Tasks
    requires t.queue != [] && t.queue[0] in t.records
  {
    var id := t.queue[0];
    t.(records := t.records[id := t.records[id].(status := Running, worker := w)], queue := t.queue[1..],
       held := t.held[w := id], holder := t.holder[id := w], started := t.started + [id])
  }

  function FinishTask(t: Tasks, w: string, o: TaskOutcome): Tasks
    requires w in t.held && t.held[w] in t.records
  {
    var id := t.held[w];
    t.(records := t.records[id := Terminal(t.records[id], o)], credit := t.credit - 1, held := t.held - {w},
       holder := t.holder - {id}, finished := t.finished + {id})
  }

  /** Cancelling a worker that waits for the executor still runs task_done but leaves its task where it is. */
  function CancelWorker(t: Tasks, w: string): Tasks {
    if w in t.held then
      t.(workers := t.workers - {w}, held := t.held - {w}, holder := t.holder - {t.held[w]}, credit := t.credit - 1,
         abandoned := t.abandoned + {t.held[w]})
    else t.(workers := t.workers - {w})
  }

  function Apply(g: Gateway, a: Action): Gateway
    requires Enabled(g, a)
  {
    match a
    case Submit(id) => Publish(g, AddTask(g.tasks, id), id)
    case StartWorker(w) => g.(tasks := g.tasks.(workers := g.tasks.workers + {w}))
    case Take(w) => Publish(g, TakeTask(g.tasks, w), g.tasks.queue[0])
    case Finish(w, o) =>
      var g1 := Publish(g, FinishTask(g.tasks, w, o), g.tasks.held[w]);
      g1.(hub := HubClose(g1.hub, g.tasks.held[w]))
    case Cancel(w) => g.(tasks := CancelWorker(g.tasks, w))
    case Subscribe(id, s) =>
      var closed := id in g.hub.closed;
      g.(hub := if closed then g.hub else HubSubscribe(g.hub, id, s),
         streams := g.streams[s := Stream(id, |LogOf(g.log, id)|, [], closed, false)])
    case Receive(s) =>
      g.(hub := HubReceive(g.hub, g.streams[s].task, s),
         streams := g.streams[s := AfterReceive(g.hub, s, g.streams[s])])
    case Close(s, running) =>
      var st := g.streams[s];
      g.(hub := if running then HubRemove(g.hub, st.task, s) else g.hub,
         streams := g.streams[s := st.(detached := true)])
  }

  function Initial(maxRecords: int): Gateway {
    Gateway(maxRecords, Tasks(map[], [], 0, {}, map[], map[], [], [], {}, {}), [], map[], Hub(map[], {}, map[]), map[])
  }

  // ---- Invariants ----

  /**
   * Submitted tasks are the started ones followed by the queue; a started task is with exactly one worker, finished,
   * or abandoned by a cancelled worker; its status says which.
   */
  ghost predicate TaskInv(t: Tasks) {
    OrderInv(t) && HoldInv(t) && StatusInv(t)
  }

  ghost predicate OrderInv(t: Tasks) {
    && NoDuplicates(t.submitted) && t.submitted == t.started + t.queue
    && forall x :: x in t.records <==> x in t.submitted
  }

  ghost predicate HoldInv(t: Tasks) {
    && Partition(t.started, t.holder, t.finished, t.abandoned)
    && Inverse(t.held, t.holder) && (forall w :: w in t.held ==> w in t.workers)
    && t.credit == |t.queue| + |t.held|
  }

  /** Every started task is in exactly one of the three places. */
  ghost predicate Partition(started: seq<string>, holder: map<string, string>, finished: set<string>,
                            abandoned: set<string>) {
    && (forall x :: x in started <==> x in holder || x in finished || x in abandoned)
    && (forall x :: x in holder ==> x !in finished && x !in abandoned)
    && (forall x :: x in finished ==> x !in abandoned)
  }

  ghost predicate Inverse(m: map<string, string>, n: map<string, string>) {
    && (forall w :: w in m ==> m[w] in n && n[m[w]] == w)
    && (forall x :: x in n ==> n[x] in m && m[n[x]] == x)
  }

  ghost predicate StatusInv(t: Tasks) {
    && (forall id :: id in t.queue ==> id in t.records && t.records[id].status == Queued)
    && (forall id :: id in t.holder || id in t.abandoned ==> id in t.records && t.records[id].status == Running)
    && (forall id :: id in t.finished ==> id in t.records && HasOutcome(t.records[id]))
  }

  predicate HasOutcome(r: Record) {
    if r.error == "" then r.status == Completed else r.status == Failed
  }

  /** The events of a task are its life so far: queued, running, terminal snapshot. */
  ghost predicate LogInv(t: Tasks, log: map<string, seq<Event>>) {
    && (forall id :: id in log <==> id in t.records)
    && forall id :: id in t.records ==> Life(id, t.records[id], LogOf(log, id))
  }

  ghost predicate Life(id: string, r: Record, log: seq<Event>) {
    && |log| == (match r.status case Queued => 1 case Running => 2 case _ => 3)
    && log[|log| - 1] == Event(id, r)
    && log[0].snapshot.status == Queued
    && (|log| > 1 ==> log[1].snapshot.status == Running)
    && forall i :: 0 <= i < |log| ==> log[i].taskId == id
  }

  ghost predicate RegistryInv(max: int, t: Tasks, registry: seq<string>) {
    && Subsequence(registry, t.submitted)
    && (forall id :: id in t.records && id !in FinishedIds(t.records) ==> id in registry)
    && (max > 0 ==> |registry| <= max || forall id :: id in registry ==> id !in FinishedIds(t.records))
  }

  /**
   * What a subscriber queue holds is exactly what is still due after the events already received, followed by the end
   * marker precisely when the task is done.
   */
  ghost predicate QueueFits(queue: seq<Option<Event>>, received: seq<Event>, due: seq<Event>, done: bool) {
    if queue == [] then received == due && !done
    else if queue[0].None? then |queue| == 1 && received == due && done
    else QueueFits(queue[1..], received + [queue[0].value], due, done)
  }

  ghost predicate SubsInv(finished: set<string>, hub: Hub<nat>, streams: map<nat, Stream>) {
    && hub.closed == finished
    && (forall id :: id in hub.subs ==> id !in finished && NoDuplicates(hub.subs[id]))
    && (forall id, q :: id in hub.subs && q in hub.subs[id] ==>
      q in streams && q in hub.queues && streams[q].task == id)
    && (forall s :: s in hub.queues ==> s in streams)
  }

  ghost predicate HubInv(finished: set<string>, log: map<string, seq<Event>>, hub: Hub<nat>,
                         streams: map<nat, Stream>) {
    && SubsInv(finished, hub, streams)
    && forall s :: s in streams ==> StreamFits(finished, log, hub, s, streams[s])
  }

  /** The events published for the stream's task since it subscribed. */
  function Due(log: map<string, seq<Event>>, st: Stream): seq<Event> {
    var all := LogOf(log, st.task);
    if st.from <= |all| then all[st.from..] else []
  }

  ghost predicate StreamFits(finished: set<string>, log: map<string, seq<Event>>, hub: Hub<nat>, s: nat, st: Stream) {
    && st.from <= |LogOf(log, st.task)|
    && (!st.detached && st.ended ==> st.task in finished && st.received == Due(log, st))
    && (!st.detached && !st.ended ==>
      && s in hub.queues && QueueFits(hub.queues[s], st.received, Due(log, st), st.task in finished)
      && (st.task !in finished ==> s in Subscribers(hub, st.task)))
  }

  ghost predicate Inv(g: Gateway) {
    && TaskInv(g.tasks) && LogInv(g.tasks, g.log) && RegistryInv(g.maxRecords, g.tasks, g.registry)
    && HubInv(g.tasks.finished, g.log, g.hub, g.streams)
  }

  // ---- Tasks ----

  lemma QueueDistinct(t: Tasks)
    requires OrderInv(t)
    ensures NoDuplicates(t.queue) && NoDuplicates(t.started)
    ensures forall id :: id in t.queue ==> id !in t.started && id in t.records
    ensures forall id :: id in t.started ==> id in t.records
  {
    NoDuplicatesSplit(t.started, t.queue);
  }

  lemma AddTaskKeeps(t: Tasks, id: string)
    requires TaskInv(t) && id !in t.records
    ensures TaskInv(AddTask(t, id))
  {
    NoDuplicatesAppend(t.submitted, id);
    assert t.submitted + [id] == t.started + (t.queue + [id]);
    AddStatus(t, id);
  }

  lemma AddStatus(t: Tasks, id: string)
    requires OrderInv(t) && HoldInv(t) && StatusInv(t) && id !in t.records
    ensures StatusInv(AddTask(t, id))
  {
    QueueDistinct(t);
  }

  predicate CanTake(t: Tasks, w: string) {
    w in t.workers && w !in t.held && t.queue != [] && t.queue[0] in t.records
  }

  lemma TakeOrder(t: Tasks, w: string)
    requires OrderInv(t) && CanTake(t, w)
    ensures OrderInv(TakeTask(t, w))
    ensures forall x :: x in t.queue[1..] ==> x in t.queue && x != t.queue[0]
  {
    QueueDistinct(t);
    assert t.queue == [t.queue[0]] + t.queue[1..];
    NoDuplicatesSplit([t.queue[0]], t.queue[1..]);
    assert t.started + t.queue == (t.started + [t.queue[0]]) + t.queue[1..];
  }

  lemma TakeHold(t: Tasks, w: string)
    requires HoldInv(t) && CanTake(t, w) && t.queue[0] !in t.started
    ensures HoldInv(TakeTask(t, w))
  {
    var id, u := t.queue[0], TakeTask(t, w);
    assert u.held.Keys == t.held.Keys + {w};
    TakePartition(t.started, t.holder, t.finished, t.abandoned, id, w);
    TakeInverse(t.held, t.holder, id, w);
  }

  lemma TakePartition(started: seq<string>, holder: map<string, string>, finished: set<string>, abandoned: set<string>,
                      id: string, w: string)
    requires Partition(started, holder, finished, abandoned) && id !in started
    ensures Partition(started + [id], holder[id := w], finished, abandoned)
  {
  }

  lemma TakeInverse(held: map<string, string>, holder: map<string, string>, id: string, w: string)
    requires Inverse(held, holder) && w !in held && id !in holder
    ensures Inverse(held[w := id], holder[id := w])
  {
  }

  /** Only the record of id changes, so every other task keeps a fitting status. */
  lemma StatusUpdate(t: Tasks, u: Tasks, id: string)
    requires StatusInv(t) && id in u.records && t.records.Keys == u.records.Keys
    requires forall x :: x in t.records && x != id ==> u.records[x] == t.records[x]
    requires forall x :: x in u.queue ==> x in t.queue && x != id
    requires forall x :: x in u.holder || x in u.abandoned ==>
      if x == id then u.records[id].status == Running else x in t.holder || x in t.abandoned
    requires forall x :: x in u.finished ==> if x == id then HasOutcome(u.records[id]) else x in t.finished
    ensures StatusInv(u)
  {
  }

  lemma TakeTaskKeeps(t: Tasks, w: string)
    requires TaskInv(t) && CanTake(t, w)
    ensures TaskInv(TakeTask(t, w))
  {
    QueueDistinct(t);
    assert t.queue[0] in t.queue;
    TakeOrder(t, w);
    TakeHold(t, w);
    TakeStatus(t, w);
  }

  lemma TakeStatus(t: Tasks, w: string)
    requires OrderInv(t) && StatusInv(t) && CanTake(t, w) && t.queue[0] !in t.abandoned && t.queue[0] !in t.finished
    ensures StatusInv(TakeTask(t, w))
  {
    var id, u := t.queue[0], TakeTask(t, w);
    TakeOrder(t, w);
    assert u.records.Keys == t.records.Keys && u.records[id].status == Running;
    StatusUpdate(t, u, id);
  }

  lemma FinishHold(t: Tasks, w: string, o: TaskOutcome)
    requires HoldInv(t) && w in t.held && t.held[w] in t.records
    ensures HoldInv(FinishTask(t, w, o))
  {
    assert (t.held - {w}).Keys == t.held.Keys - {w};
  }

  lemma FinishStatus(t: Tasks, w: string, o: TaskOutcome)
    requires StatusInv(t) && w in t.held && t.held[w] in t.records && t.held[w] !in t.queue && t.held[w] !in t.abandoned
    ensures StatusInv(FinishTask(t, w, o))
  {
    StatusUpdate(t, FinishTask(t, w, o), t.held[w]);
  }

  lemma FinishTaskKeeps(t: Tasks, w: string, o: TaskOutcome)
    requires TaskInv(t) && w in t.held && t.held[w] in t.records
    ensures TaskInv(FinishTask(t, w, o))
  {
    FinishHold(t, w, o);
    QueueDistinct(t);
    assert t.held[w] in t.holder && t.held[w] in t.started;
    FinishStatus(t, w, o);
  }

  lemma CancelWorkerKeeps(t: Tasks, w: string)
    requires TaskInv(t) && w in t.workers
    ensures TaskInv(CancelWorker(t, w))
  {
    if w in t.held {
      assert (t.held - {w}).Keys == t.held.Keys - {w};
    }
  }

  // ---- Logs ----

  /** A status may follow another: none, queued, running, finished. */
  predicate Follows(before: Option<Record>, after: TaskStatus) {
    match before
    case None => after == Queued
    case Some(r) => if r.status == Queued then after == Running else r.status == Running && after.Finished()
  }

  lemma LifeGrows(id: string, before: Option<Record>, r: Record, log: seq<Event>)
    requires if before.None? then log == [] else Life(id, before.value, log)
    requires Follows(before, r.status)
    ensures Life(id, r, log + [Event(id, r)])
  {
  }

  function RecordOf(t: Tasks, id: string): Option<Record> {
    if id in t.records then Some(t.records[id]) else None
  }

  lemma PublishKeepsLog(t: Tasks, u: Tasks, log: map<string, seq<Event>>, id: string)
    requires LogInv(t, log) && id in u.records
    requires forall x :: x != id ==> RecordOf(u, x) == RecordOf(t, x)
    requires Follows(RecordOf(t, id), u.records[id].status)
    ensures LogInv(u, log[id := LogOf(log, id) + [Event(id, u.records[id])]])
  {
    LifeGrows(id, RecordOf(t, id), u.records[id], LogOf(log, id));
    var log' := log[id := LogOf(log, id) + [Event(id, u.records[id])]];
    forall x
      ensures x in log' <==> x in u.records
      ensures x in u.records ==> Life(x, u.records[x], LogOf(log', x))
    {
      assert x != id ==> RecordOf(u, x) == RecordOf(t, x);
    }
  }

  // ---- Registry ----

  lemma PutKeepsRegistry(max: int, t: Tasks, u: Tasks, registry: seq<string>, id: string)
    requires RegistryInv(max, t, registry) && id in u.records && u.records.Keys == t.records.Keys + {id}
    requires forall x :: x in t.records && x != id ==> u.records[x] == t.records[x]
    requires forall x :: x in registry ==> x in t.records
    requires if id in t.records then u.submitted == t.submitted && id in registry else u.submitted == t.submitted + [id]
    requires id !in t.records ==> !u.records[id].status.Finished()
    ensures RegistryInv(max, u, PutOrder(registry, FinishedIds(u.records), max, id))
  {
    var fin := FinishedIds(u.records);
    var o := Inserted(registry, id);
    var out := PutOrder(registry, fin, max, id);
    if id !in t.records { SubsequenceAppend(registry, t.submitted, id); }
    if max > 0 { PutBounded(registry, fin, max, id); }
    if max > 0 && |o| > max {
      EvictSubsequence(o, fin, |o| - max);
      SubsequenceTransitive(out, o, u.submitted);
      EvictMembers(o, fin, |o| - max);
    }
    forall x | x in u.records && x !in fin ensures x in out {
      assert x == id || (x in t.records && x !in FinishedIds(t.records));
    }
  }

  // ---- Streams ----

  lemma {:induction false} QueuePublish(queue: seq<Option<Event>>, received: seq<Event>, due: seq<Event>, e: Event)
    requires QueueFits(queue, received, due, false)
    ensures QueueFits(queue + [Some(e)], received, due + [e], false)
    decreases |queue|
  {
    if queue != [] {
      QueuePublish(queue[1..], received + [queue[0].value], due, e);
      assert (queue + [Some(e)])[1..] == queue[1..] + [Some(e)];
    } else {
      assert QueueFits([], received + [e], due + [e], false);
      assert ([] + [Some(e)])[1..] == [];
    }
  }

  lemma {:induction false} QueueClose(queue: seq<Option<Event>>, received: seq<Event>, due: seq<Event>)
    requires QueueFits(queue, received, due, false)
    ensures QueueFits(queue + [None], received, due, true)
    decreases |queue|
  {
    if queue != [] {
      QueueClose(queue[1..], received + [queue[0].value], due);
      assert (queue + [None])[1..] == queue[1..] + [None];
    }
  }

  lemma {:induction false} QueueOrder(queue: seq<Option<Event>>, received: seq<Event>, due: seq<Event>, done: bool)
    requires QueueFits(queue, received, due, done)
    ensures received <= due && |queue| == |due| - |received| + if done then 1 else 0
    ensures forall i :: 0 <= i < |due| - |received| ==> queue[i] == Some(due[|received| + i])
    ensures done ==> queue[|queue| - 1] == None
    decreases |queue|
  {
    if queue != [] && queue[0].Some? {
      var next := received + [queue[0].value];
      QueueOrder(queue[1..], next, due, done);
      assert received <= next;
      forall i | 0 <= i < |due| - |received| ensures queue[i] == Some(due[|received| + i]) {
        if i == 0 {
          assert due[|received|] == next[|received|];
        } else {
          assert queue[i] == queue[1..][i - 1];
        }
      }
    }
  }

  lemma PublishStream(finished: set<string>, log: map<string, seq<Event>>, hub: Hub<nat>, s: nat, st: Stream,
                      id: string, e: Event)
    requires StreamFits(finished, log, hub, s, st) && id !in finished
    requires s in Subscribers(hub, id) ==> st.task == id
    ensures StreamFits(finished, log[id := LogOf(log, id) + [e]], HubPublish(hub, id, e), s, st)
  {
    if st.task == id && !st.detached && !st.ended {
      assert (LogOf(log, id) + [e])[st.from..] == Due(log, st) + [e];
      QueuePublish(hub.queues[s], st.received, Due(log, st), e);
    }
  }

  lemma PublishKeepsHub(finished: set<string>, log: map<string, seq<Event>>, hub: Hub<nat>, streams: map<nat, Stream>,
                        id: string, e: Event)
    requires HubInv(finished, log, hub, streams) && id !in finished
    ensures HubInv(finished, log[id := LogOf(log, id) + [e]], HubPublish(hub, id, e), streams)
  {
    forall s | s in streams
      ensures StreamFits(finished, log[id := LogOf(log, id) + [e]], HubPublish(hub, id, e), s, streams[s])
    {
      PublishStream(finished, log, hub, s, streams[s], id, e);
    }
  }

  lemma CloseStream(finished: set<string>, log: map<string, seq<Event>>, hub: Hub<nat>, s: nat, st: Stream, id: string)
    requires StreamFits(finished, log, hub, s, st) && id !in finished
    requires s in Subscribers(hub, id) ==> st.task == id
    ensures StreamFits(finished + {id}, log, HubClose(hub, id), s, st)
  {
    if st.task == id && !st.detached && !st.ended {
      QueueClose(hub.queues[s], st.received, Due(log, st));
    }
  }

  lemma CloseKeepsHub(finished: set<string>, log: map<string, seq<Event>>, hub: Hub<nat>, streams: map<nat, Stream>,
                      id: string)
    requires HubInv(finished, log, hub, streams) && id !in finished
    ensures HubInv(finished + {id}, log, HubClose(hub, id), streams)
  {
    forall s | s in streams ensures StreamFits(finished + {id}, log, HubClose(hub, id), s, streams[s]) {
      CloseStream(finished, log, hub, s, streams[s], id);
    }
  }

  lemma SubscribeSubs(finished: set<string>, hub: Hub<nat>, streams: map<nat, Stream>, id: string, s: nat, st: Stream)
    requires SubsInv(finished, hub, streams) && s !in streams && s !in hub.queues && id !in finished && st.task == id
    ensures SubsInv(finished, HubSubscribe(hub, id, s), streams[s := st])
  {
    NoDuplicatesAppend(Subscribers(hub, id), s);
  }

  lemma SubscribeKeepsHub(finished: set<string>, log: map<string, seq<Event>>, hub: Hub<nat>, streams: map<nat, Stream>,
                          id: string, s: nat)
    requires HubInv(finished, log, hub, streams) && s !in streams && s !in hub.queues
    ensures var closed := id in hub.closed;
      HubInv(finished, log, if closed then hub else HubSubscribe(hub, id, s),
             streams[s := Stream(id, |LogOf(log, id)|, [], closed, false)])
  {
    var closed := id in hub.closed;
    var st := Stream(id, |LogOf(log, id)|, [], closed, false);
    var hub' := if closed then hub else HubSubscribe(hub, id, s);
    assert Due(log, st) == [];
    if !closed { SubscribeSubs(finished, hub, streams, id, s, st); }
    assert StreamFits(finished, log, hub', s, st);
    forall r | r in streams ensures StreamFits(finished, log, hub', r, streams[r]) {
      assert StreamFits(finished, log, hub, r, streams[r]);
    }
  }

  lemma RemoveKeeps(finished: set<string>, hub: Hub<nat>, streams: map<nat, Stream>, id: string, q: nat, st: Stream)
    requires SubsInv(finished, hub, streams) && q in streams && st.task == streams[q].task
    ensures SubsInv(finished, HubRemove(hub, id, q), streams[q := st])
    ensures forall i, r :: r in Subscribers(hub, i) && r != q ==> r in Subscribers(HubRemove(hub, id, q), i)
  {
    if id in hub.subs { WithoutMembers(hub.subs[id], q); }
  }

  lemma OtherStreams(finished: set<string>, log: map<string, seq<Event>>, hub: Hub<nat>, hub': Hub<nat>,
                     streams: map<nat, Stream>, s: nat, st: Stream)
    requires HubInv(finished, log, hub, streams) && s in streams
    requires SubsInv(finished, hub', streams[s := st]) && StreamFits(finished, log, hub', s, st)
    requires forall r :: r in hub.queues && r != s ==> r in hub'.queues && hub'.queues[r] == hub.queues[r]
    requires forall i, r :: r in Subscribers(hub, i) && r != s ==> r in Subscribers(hub', i)
    ensures HubInv(finished, log, hub', streams[s := st])
  {
    forall r | r in streams && r != s ensures StreamFits(finished, log, hub', r, streams[r]) {
      assert StreamFits(finished, log, hub, r, streams[r]);
    }
  }

  function AfterReceive(hub: Hub<nat>, s: nat, st: Stream): Stream
    requires s in hub.queues && hub.queues[s] != []
  {
    var item := hub.queues[s][0];
    if item.None? then st.(ended := true) else st.(received := st.received + [item.value])
  }

  lemma ReceiveKeepsHub(finished: set<string>, log: map<string, seq<Event>>, hub: Hub<nat>, streams: map<nat, Stream>,
                        s: nat)
    requires HubInv(finished, log, hub, streams)
    requires s in streams && !streams[s].ended && !streams[s].detached && s in hub.queues && hub.queues[s] != []
    ensures HubInv(finished, log, HubReceive(hub, streams[s].task, s), streams[s := AfterReceive(hub, s, streams[s])])
  {
    var st := streams[s];
    var st' := AfterReceive(hub, s, st);
    ReceiveStream(finished, log, hub, s, st);
    ReceiveSubs(finished, hub, streams, s, st');
    OtherStreams(finished, log, hub, HubReceive(hub, st.task, s), streams, s, st');
  }

  lemma ReceiveStream(finished: set<string>, log: map<string, seq<Event>>, hub: Hub<nat>, s: nat, st: Stream)
    requires StreamFits(finished, log, hub, s, st) && !st.ended && !st.detached && hub.queues[s] != []
    ensures StreamFits(finished, log, HubReceive(hub, st.task, s), s, AfterReceive(hub, s, st))
  {
  }

  lemma ReceiveSubs(finished: set<string>, hub: Hub<nat>, streams: map<nat, Stream>, s: nat, st': Stream)
    requires SubsInv(finished, hub, streams) && s in streams && st'.task == streams[s].task
    requires s in hub.queues && hub.queues[s] != []
    ensures SubsInv(finished, HubReceive(hub, st'.task, s), streams[s := st'])
    ensures forall i, r :: r in Subscribers(hub, i) && r != s ==> r in Subscribers(HubReceive(hub, st'.task, s), i)
  {
    RemoveKeeps(finished, hub.(queues := hub.queues[s := hub.queues[s][1..]]), streams, st'.task, s, st');
  }

  lemma DetachKeepsHub(finished: set<string>, log: map<string, seq<Event>>, hub: Hub<nat>, streams: map<nat, Stream>,
                       s: nat, running: bool)
    requires HubInv(finished, log, hub, streams) && s in streams
    ensures HubInv(finished, log, if running then HubRemove(hub, streams[s].task, s) else hub,
                   streams[s := streams[s].(detached := true)])
  {
    var st' := streams[s].(detached := true);
    assert StreamFits(finished, log, hub, s, streams[s]);
    if running {
      RemoveKeeps(finished, hub, streams, streams[s].task, s, st');
      OtherStreams(finished, log, hub, HubRemove(hub, streams[s].task, s), streams, s, st');
    } else {
      OtherStreams(finished, log, hub, hub, streams, s, st');
    }
  }

  // ---- Every run ----

  lemma ApplyTasks(g: Gateway, a: Action)
    requires TaskInv(g.tasks) && Enabled(g, a)
    ensures TaskInv(Apply(g, a).tasks)
  {
    match a
    case Submit(id) => AddTaskKeeps(g.tasks, id);
    case Take(w) => TakeTaskKeeps(g.tasks, w);
    case Finish(w, o) => FinishTaskKeeps(g.tasks, w, o);
    case Cancel(w) => CancelWorkerKeeps(g.tasks, w);
    case _ =>
  }

  /** The task a publishing action is about has not finished yet. */
  lemma Subject(t: Tasks, w: string)
    requires TaskInv(t)
    ensures t.queue != [] ==>
      t.queue[0] in t.queue && t.queue[0] !in t.finished && t.records[t.queue[0]].status == Queued
    ensures w in t.held ==> t.held[w] in t.holder && t.held[w] !in t.finished && t.records[t.held[w]].status == Running
    ensures forall id :: id in t.finished ==> id in t.records
  {
    QueueDistinct(t);
  }

  lemma ApplyLog(g: Gateway, a: Action)
    requires TaskInv(g.tasks) && LogInv(g.tasks, g.log) && Enabled(g, a)
    ensures LogInv(Apply(g, a).tasks, Apply(g, a).log)
  {
    match a
    case Submit(id) => PublishKeepsLog(g.tasks, AddTask(g.tasks, id), g.log, id);
    case Take(w) => TakeLog(g.tasks, g.log, w);
    case Finish(w, o) => FinishLog(g.tasks, g.log, w, o);
    case _ =>
  }

  lemma TakeLog(t: Tasks, log: map<string, seq<Event>>, w: string)
    requires TaskInv(t) && LogInv(t, log) && CanTake(t, w)
    ensures var id, u := t.queue[0], TakeTask(t, w);
      LogInv(u, log[id := LogOf(log, id) + [Event(id, u.records[id])]])
  {
    Subject(t, w);
    PublishKeepsLog(t, TakeTask(t, w), log, t.queue[0]);
  }

  lemma FinishLog(t: Tasks, log: map<string, seq<Event>>, w: string, o: TaskOutcome)
    requires TaskInv(t) && LogInv(t, log) && w in t.held && t.held[w] in t.records
    ensures var id, u := t.held[w], FinishTask(t, w, o);
      LogInv(u, log[id := LogOf(log, id) + [Event(id, u.records[id])]])
  {
    Subject(t, w);
    PublishKeepsLog(t, FinishTask(t, w, o), log, t.held[w]);
  }

  lemma SubmitFits(t: Tasks, u: Tasks, id: string)
    requires u == AddTask(t, id)
    ensures u.records.Keys == t.records.Keys + {id} && u.submitted == t.submitted + [id]
    ensures forall x :: x in t.records && x != id ==> u.records[x] == t.records[x]
    ensures u.records[id].status == Queued
  {
  }

  lemma RegistrySubmit(max: int, t: Tasks, u: Tasks, registry: seq<string>, id: string)
    requires OrderInv(t) && RegistryInv(max, t, registry) && id !in t.records && u == AddTask(t, id)
    ensures RegistryInv(max, u, PutOrder(registry, FinishedIds(u.records), max, id))
  {
    SubsequenceDistinct(registry, t.submitted);
    SubmitFits(t, u, id);
    PutKeepsRegistry(max, t, u, registry, id);
  }

  lemma RegistryTake(max: int, t: Tasks, u: Tasks, registry: seq<string>, w: string)
    requires TaskInv(t) && RegistryInv(max, t, registry) && CanTake(t, w) && u == TakeTask(t, w)
    ensures RegistryInv(max, u, PutOrder(registry, FinishedIds(u.records), max, t.queue[0]))
  {
    SubsequenceDistinct(registry, t.submitted);
    Subject(t, w);
    PutKeepsRegistry(max, t, u, registry, t.queue[0]);
  }

  lemma RegistryFinish(max: int, t: Tasks, u: Tasks, registry: seq<string>, w: string, o: TaskOutcome)
    requires TaskInv(t) && RegistryInv(max, t, registry) && w in t.held && t.held[w] in t.records &&
      u == FinishTask(t, w, o)
    ensures RegistryInv(max, u, PutOrder(registry, FinishedIds(u.records), max, t.held[w]))
  {
    RegistryKnown(t, registry);
    FinishFrame(t, u, w, o);
    Subject(t, w);
    PutKeepsRegistry(max, t, u, registry, t.held[w]);
  }

  lemma RegistryKnown(t: Tasks, registry: seq<string>)
    requires OrderInv(t) && Subsequence(registry, t.submitted)
    ensures forall x :: x in registry ==> x in t.records
  {
    SubsequenceDistinct(registry, t.submitted);
  }

  lemma FinishFrame(t: Tasks, u: Tasks, w: string, o: TaskOutcome)
    requires w in t.held && t.held[w] in t.records && u == FinishTask(t, w, o)
    ensures u.records.Keys == t.records.Keys + {t.held[w]} && u.submitted == t.submitted
    ensures forall x :: x in t.records && x != t.held[w] ==> u.records[x] == t.records[x]
  {
  }

  lemma ApplyRegistry(g: Gateway, a: Action)
    requires TaskInv(g.tasks) && RegistryInv(g.maxRecords, g.tasks, g.registry) && Enabled(g, a)
    ensures RegistryInv(g.maxRecords, Apply(g, a).tasks, Apply(g, a).registry)
  {
    var t := g.tasks;
    match a
    case Submit(id) => RegistrySubmit(g.maxRecords, t, AddTask(t, id), g.registry, id);
    case Take(w) => RegistryTake(g.maxRecords, t, TakeTask(t, w), g.registry, w);
    case Finish(w, o) => RegistryFinish(g.maxRecords, t, FinishTask(t, w, o), g.registry, w, o);
    case _ =>
  }

  lemma ApplyHub(g: Gateway, a: Action)
    requires TaskInv(g.tasks) && HubInv(g.tasks.finished, g.log, g.hub, g.streams) && Enabled(g, a)
    ensures var h := Apply(g, a); HubInv(h.tasks.finished, h.log, h.hub, h.streams)
  {
    var t, fin := g.tasks, g.tasks.finished;
    match a
    case Submit(id) =>
      Subject(t, "");
      PublishKeepsHub(fin, g.log, g.hub, g.streams, id, Event(id, AddTask(t, id).records[id]));
    case Take(w) =>
      Subject(t, w);
      PublishKeepsHub(fin, g.log, g.hub, g.streams, t.queue[0], Event(t.queue[0], TakeTask(t, w).records[t.queue[0]]));
    case Finish(w, o) =>
      Subject(t, w);
      var id, e := t.held[w], Event(t.held[w], FinishTask(t, w, o).records[t.held[w]]);
      PublishKeepsHub(fin, g.log, g.hub, g.streams, id, e);
      CloseKeepsHub(fin, g.log[id := LogOf(g.log, id) + [e]], HubPublish(g.hub, id, e), g.streams, id);
    case Subscribe(id, s) => SubscribeKeepsHub(fin, g.log, g.hub, g.streams, id, s);
    case Receive(s) => ReceiveKeepsHub(fin, g.log, g.hub, g.streams, s);
    case Close(s, running) => DetachKeepsHub(fin, g.log, g.hub, g.streams, s, running);
    case _ =>
  }

  /** Every action keeps all invariants. */
  lemma ApplyKeepsInv(g: Gateway, a: Action)
    requires Inv(g) && Enabled(g, a)
    ensures Inv(Apply(g, a)) && Apply(g, a).maxRecords == g.maxRecords
  {
    ApplyTasks(g, a);
    ApplyLog(g, a);
    ApplyRegistry(g, a);
    ApplyHub(g, a);
  }

  ghost predicate IsRun(max: int, trace: seq<Gateway>) {
    && trace != [] && trace[0] == Initial(max)
    && forall i :: 0 <= i < |trace| - 1 ==> Steps(trace[i], trace[i + 1])
  }

  ghost predicate Steps(g: Gateway, h: Gateway) {
    exists a :: Enabled(g, a) && h == Apply(g, a)
  }

  lemma {:induction false} RunInv(max: int, trace: seq<Gateway>, k: nat)
    requires IsRun(max, trace) && k < |trace|
    ensures Inv(trace[k])
  {
    if k > 0 {
      RunInv(max, trace, k - 1);
      assert Steps(trace[k - 1], trace[k]);
      var a :| Enabled(trace[k - 1], a) && trace[k] == Apply(trace[k - 1], a);
      ApplyKeepsInv(trace[k - 1], a);
    }
  }
}
