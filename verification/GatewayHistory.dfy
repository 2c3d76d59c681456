/**
 * What the gateway holds after any run, read off the actions alone: who works on which task, every task record and
 * every event log (youmi/gateway/worker.py).
 */
module GatewayHistory {
  import opened Common
  import opened GatewayModel
  import opened GatewayProtocol
  import opened GatewayGuarantees

  // ---- The history ----

  function After(max: int, actions: seq<Action>): Gateway
    requires Possible(max, actions)
    decreases |actions|, 1
  {
    if actions == [] then Initial(max)
    else Apply(After(max, actions[..|actions| - 1]), actions[|actions| - 1])
  }

  /** Every action is enabled when it is taken. */
  predicate Possible(max: int, actions: seq<Action>)
    decreases |actions|, 0
  {
    actions == [] || (Possible(max, actions[..|actions| - 1]) &&
                      Enabled(After(max, actions[..|actions| - 1]), actions[|actions| - 1]))
  }

  function Submitted(actions: seq<Action>): seq<string> {
    if actions == [] then []
    else
      var before, x := Submitted(actions[..|actions| - 1]), actions[|actions| - 1];
      if x.Submit? then before + [x.id] else before
  }

  function Takes(actions: seq<Action>): nat {
    if actions == [] then 0 else Takes(actions[..|actions| - 1]) + if actions[|actions| - 1].Take? then 1 else 0
  }

  /** The oldest task that nobody has taken. */
  function NextTask(actions: seq<Action>): Option<string> {
    if Takes(actions) < |Submitted(actions)| then Some(Submitted(actions)[Takes(actions)]) else None
  }

  predicate Works(actions: seq<Action>, w: string) {
    if actions == [] then false
    else
      match actions[|actions| - 1]
      case StartWorker(v) => v == w || Works(actions[..|actions| - 1], w)
      case Cancel(v) => v != w && Works(actions[..|actions| - 1], w)
      case _ => Works(actions[..|actions| - 1], w)
  }

  /** The task whose executor the worker awaits. */
  function HeldBy(actions: seq<Action>, w: string): Option<string> {
    if actions == [] then None
    else
      var init := actions[..|actions| - 1];
      match actions[|actions| - 1]
      case Take(v) => if v == w then NextTask(init) else HeldBy(init, w)
      case Finish(v, _) => if v == w then None else HeldBy(init, w)
      case Cancel(v) => if v == w then None else HeldBy(init, w)
      case _ => HeldBy(init, w)
  }

  /** The record of the task: queued, running with its worker, or what the executor of that worker returned. */
  function RecordSince(actions: seq<Action>, id: string): Option<Record> {
    if actions == [] then None
    else
      var init := actions[..|actions| - 1];
      var before := RecordSince(init, id);
      match actions[|actions| - 1]
      case Submit(i) => if i == id then Some(Record(Queued, "", "", "")) else before
      case Take(w) => if NextTask(init) == Some(id) then Some(Record(Running, "", "", w)) else before
      case Finish(w, o) => if HeldBy(init, w) == Some(id) then Some(Outcome(w, o)) else before
      case _ => before
  }

  /** The record of a task that worker w finished with outcome o. */
  function Outcome(w: string, o: TaskOutcome): Record {
    Record(if o.error == "" then Completed else Failed, o.output, o.error, w)
  }

  /** The snapshots published for the task. */
  function EventsOf(actions: seq<Action>, id: string): seq<Event> {
    if actions == [] then []
    else
      var init := actions[..|actions| - 1];
      var before, now := RecordSince(init, id), RecordSince(actions, id);
      if now.Some? && now != before then EventsOf(init, id) + [Event(id, now.value)] else EventsOf(init, id)
  }

  /** How many tasks a worker has stopped working on. */
  function Ended(actions: seq<Action>): nat {
    if actions == [] then 0
    else
      var init := actions[..|actions| - 1];
      Ended(init) + match actions[|actions| - 1]
        case Finish(w, _) => 1
        case Cancel(w) => if HeldBy(init, w).Some? then 1 else 0
        case _ => 0
  }

  /** The task a stream was opened on and how many of its events had been published by then. */
  datatype Opened = Opened(task: string, from: nat)

  function OpenedBy(actions: seq<Action>, s: nat): Option<Opened> {
    if actions == [] then None
    else
      var init, x := actions[..|actions| - 1], actions[|actions| - 1];
      if x.Subscribe? && x.stream == s then Some(Opened(x.id, |EventsOf(init, x.id)|)) else OpenedBy(init, s)
  }

  predicate ClosedBy(actions: seq<Action>, s: nat) {
    actions != [] &&
      (ClosedBy(actions[..|actions| - 1], s) || (actions[|actions| - 1].Close? && actions[|actions| - 1].stream == s))
  }

  /** How many items the client of the stream has taken, the end marker included. */
  function Items(actions: seq<Action>, s: nat): nat {
    if actions == [] then 0
    else
      var x := actions[|actions| - 1];
      Items(actions[..|actions| - 1], s) + if x.Receive? && x.stream == s then 1 else 0
  }

  // ---- The gateway agrees with the history ----

  ghost predicate QueueFits(t: Tasks, actions: seq<Action>) {
    && t.submitted == Submitted(actions) && Takes(actions) <= |t.submitted|
    && t.queue == t.submitted[Takes(actions)..] && t.started == t.submitted[..Takes(actions)]
  }

  ghost predicate WorkersFit(t: Tasks, actions: seq<Action>) {
    && (forall w :: w in t.workers <==> Works(actions, w))
    && (forall w :: HeldBy(actions, w) == if w in t.held then Some(t.held[w]) else None)
    && t.credit == |Submitted(actions)| - Ended(actions)
  }

  ghost predicate RecordsFit(t: Tasks, actions: seq<Action>) {
    && (forall id :: RecordOf(t, id) == RecordSince(actions, id))
    && (forall w :: w in t.held ==> RecordOf(t, t.held[w]) == Some(Record(Running, "", "", w)))
    && (forall id :: id in t.queue ==> RecordOf(t, id) == Some(Record(Queued, "", "", "")))
  }

  ghost predicate LogsFit(log: map<string, seq<Event>>, actions: seq<Action>) {
    forall id :: LogOf(log, id) == EventsOf(actions, id)
  }

  ghost predicate StreamFitsHistory(g: Gateway, actions: seq<Action>, s: nat) {
    && (s in g.streams <==> OpenedBy(actions, s).Some?)
    && (s in g.streams ==>
      var st, o := g.streams[s], OpenedBy(actions, s).value;
        && st.task == o.task && st.from == o.from && (st.detached <==> ClosedBy(actions, s))
        && (st.ended ==> st.task in g.tasks.finished))
    && (s !in g.streams ==> !ClosedBy(actions, s) && Items(actions, s) == 0)
  }

  /** A live stream has delivered one event per item taken; the last item of a stream that has ended was the marker. */
  ghost predicate ItemsFit(g: Gateway, actions: seq<Action>, s: nat) {
    s in g.streams ==>
      var st := g.streams[s];
        && Items(actions, s) == |st.received| + (if st.ended && Items(actions, s) > 0 then 1 else 0)
        && (st.ended && Items(actions, s) == 0 ==> st.received == [])
  }

  ghost predicate StreamsFit(g: Gateway, actions: seq<Action>) {
    forall s :: StreamFitsHistory(g, actions, s) && ItemsFit(g, actions, s)
  }

  ghost predicate Fits(g: Gateway, actions: seq<Action>) {
    && QueueFits(g.tasks, actions) && WorkersFit(g.tasks, actions) && RecordsFit(g.tasks, actions)
    && LogsFit(g.log, actions) && StreamsFit(g, actions)
  }

  ghost predicate Extends(actions: seq<Action>, init: seq<Action>, x: Action) {
    actions != [] && actions[..|actions| - 1] == init && actions[|actions| - 1] == x
  }

  lemma StepQueue(g: Gateway, init: seq<Action>, x: Action, actions: seq<Action>)
    requires QueueFits(g.tasks, init) && Enabled(g, x) && Extends(actions, init, x)
    ensures QueueFits(Apply(g, x).tasks, actions)
    ensures NextTask(init) == if g.tasks.queue == [] then None else Some(g.tasks.queue[0])
  {
    match x
    case Submit(id) => SubmitQueue(g.tasks, init, id, actions);
    case Take(w) => TakeQueue(g.tasks, init, w, actions);
    case _ =>
  }

  lemma SubmitQueue(t: Tasks, init: seq<Action>, id: string, actions: seq<Action>)
    requires QueueFits(t, init) && Extends(actions, init, Submit(id))
    ensures QueueFits(AddTask(t, id), actions)
  {
    SubmitSplits(t.submitted, id, Takes(init));
  }

  lemma SubmitSplits(s: seq<string>, id: string, n: nat)
    requires n <= |s|
    ensures (s + [id])[n..] == s[n..] + [id] && (s + [id])[..n] == s[..n]
  {
  }

  lemma TakeQueue(t: Tasks, init: seq<Action>, w: string, actions: seq<Action>)
    requires QueueFits(t, init) && CanTake(t, w) && Extends(actions, init, Take(w))
    ensures QueueFits(TakeTask(t, w), actions)
  {
    TakeSplits(t.submitted, Takes(init), Takes(actions));
  }

  lemma TakeSplits(s: seq<string>, n: nat, next: nat)
    requires n < |s| && next == n + 1
    ensures s[n..] == [s[n]] + s[next..] && s[n..][1..] == s[next..] && s[..n] + [s[n]] == s[..next]
  {
  }

  lemma StepWorkers(g: Gateway, init: seq<Action>, x: Action, actions: seq<Action>)
    requires QueueFits(g.tasks, init) && WorkersFit(g.tasks, init) && Enabled(g, x) && Extends(actions, init, x)
    ensures WorkersFit(Apply(g, x).tasks, actions)
  {
    StepQueue(g, init, x, actions);
  }

  lemma SubmitRecords(t: Tasks, id: string)
    requires TaskInv(t) && id !in t.records
    ensures forall x :: RecordOf(AddTask(t, id), x) ==
                        (if x == id then Some(Record(Queued, "", "", "")) else RecordOf(t, x))
    ensures id !in t.queue && forall w :: w in t.held ==> t.held[w] != id
  {
    QueueDistinct(t);
  }

  lemma TakeRecords(t: Tasks, w: string)
    requires TaskInv(t) && CanTake(t, w) && RecordOf(t, t.queue[0]) == Some(Record(Queued, "", "", ""))
    ensures forall x :: RecordOf(TakeTask(t, w), x) ==
                        (if x == t.queue[0] then Some(Record(Running, "", "", w)) else RecordOf(t, x))
    ensures t.queue[0] !in t.queue[1..] && forall v :: v in t.held ==> t.held[v] != t.queue[0]
  {
    Subject(t, w);
    TakeOrder(t, w);
    QueueDistinct(t);
  }

  lemma FinishRecords(t: Tasks, w: string, o: TaskOutcome)
    requires TaskInv(t) && w in t.held && RecordOf(t, t.held[w]) == Some(Record(Running, "", "", w))
    ensures forall x :: RecordOf(FinishTask(t, w, o), x) ==
                        (if x == t.held[w] then Some(Outcome(w, o)) else RecordOf(t, x))
    ensures t.held[w] !in t.queue && forall v :: v in t.held && v != w ==> t.held[v] != t.held[w]
  {
    Subject(t, w);
    QueueDistinct(t);
  }

  lemma SubmitFits(t: Tasks, init: seq<Action>, id: string, actions: seq<Action>)
    requires TaskInv(t) && RecordsFit(t, init) && id !in t.records && Extends(actions, init, Submit(id))
    ensures RecordsFit(AddTask(t, id), actions)
  {
    SubmitRecords(t, id);
  }

  lemma TakeFits(t: Tasks, init: seq<Action>, w: string, actions: seq<Action>)
    requires TaskInv(t) && RecordsFit(t, init) && CanTake(t, w) && NextTask(init) == Some(t.queue[0])
    requires Extends(actions, init, Take(w))
    ensures RecordsFit(TakeTask(t, w), actions)
  {
    assert t.queue[0] in t.queue;
    TakeRecords(t, w);
  }

  lemma FinishFits(t: Tasks, init: seq<Action>, w: string, o: TaskOutcome, actions: seq<Action>)
    requires TaskInv(t) && RecordsFit(t, init) && w in t.held && t.held[w] in t.records
    requires HeldBy(init, w) == Some(t.held[w]) && Extends(actions, init, Finish(w, o))
    ensures RecordsFit(FinishTask(t, w, o), actions)
  {
    FinishRecords(t, w, o);
  }

  lemma CancelFits(t: Tasks, init: seq<Action>, w: string, actions: seq<Action>)
    requires RecordsFit(t, init) && Extends(actions, init, Cancel(w))
    ensures RecordsFit(CancelWorker(t, w), actions)
  {
  }

  lemma StepRecords(g: Gateway, init: seq<Action>, x: Action, actions: seq<Action>)
    requires TaskInv(g.tasks) && QueueFits(g.tasks, init) && WorkersFit(g.tasks, init) && RecordsFit(g.tasks, init)
    requires Enabled(g, x) && Extends(actions, init, x)
    ensures RecordsFit(Apply(g, x).tasks, actions)
  {
    StepQueue(g, init, x, actions);
    match x
    case Submit(id) => SubmitFits(g.tasks, init, id, actions);
    case Take(w) => TakeFits(g.tasks, init, w, actions);
    case Finish(w, o) => FinishFits(g.tasks, init, w, o, actions);
    case Cancel(w) => CancelFits(g.tasks, init, w, actions);
    case _ =>
  }

  /** The published log against the records before and after: exactly a record that changes is published. */
  ghost predicate Published(t: Tasks, log: map<string, seq<Event>>, u: Tasks, after: map<string, seq<Event>>,
                            id: string) {
    var before, now := RecordOf(t, id), RecordOf(u, id);
    LogOf(after, id) == LogOf(log, id) + if now.Some? && now != before then [Event(id, now.value)] else []
  }

  lemma PublishOne(g: Gateway, u: Tasks, subject: string, id: string)
    requires subject in u.records && RecordOf(u, subject) != RecordOf(g.tasks, subject)
    requires id != subject ==> RecordOf(u, id) == RecordOf(g.tasks, id)
    ensures Published(g.tasks, g.log, u, Publish(g, u, subject).log, id)
  {
  }

  /** An action publishes exactly the record that it changes. */
  lemma Publishes(g: Gateway, x: Action, id: string)
    requires TaskInv(g.tasks) && Enabled(g, x)
    ensures Published(g.tasks, g.log, Apply(g, x).tasks, Apply(g, x).log, id)
  {
    match x
    case Submit(s) => PublishOne(g, AddTask(g.tasks, s), s, id);
    case Take(w) => PublishTake(g, w, id);
    case Finish(w, o) => PublishFinish(g, w, o, id);
    case _ =>
  }

  lemma PublishTake(g: Gateway, w: string, id: string)
    requires TaskInv(g.tasks) && CanTake(g.tasks, w)
    ensures var u := TakeTask(g.tasks, w);
      Published(g.tasks, g.log, u, Publish(g, u, g.tasks.queue[0]).log, id)
  {
    Subject(g.tasks, w);
    PublishOne(g, TakeTask(g.tasks, w), g.tasks.queue[0], id);
  }

  lemma PublishFinish(g: Gateway, w: string, o: TaskOutcome, id: string)
    requires TaskInv(g.tasks) && w in g.tasks.held && g.tasks.held[w] in g.tasks.records
    ensures var u := FinishTask(g.tasks, w, o);
      Published(g.tasks, g.log, u, Publish(g, u, g.tasks.held[w]).log, id)
  {
    Subject(g.tasks, w);
    PublishOne(g, FinishTask(g.tasks, w, o), g.tasks.held[w], id);
  }

  lemma StepLogs(g: Gateway, init: seq<Action>, x: Action, actions: seq<Action>)
    requires TaskInv(g.tasks) && RecordsFit(g.tasks, init) && LogsFit(g.log, init)
    requires Enabled(g, x) && Extends(actions, init, x) && RecordsFit(Apply(g, x).tasks, actions)
    ensures LogsFit(Apply(g, x).log, actions)
  {
    forall id ensures LogOf(Apply(g, x).log, id) == EventsOf(actions, id) {
      Publishes(g, x, id);
    }
  }

  lemma SubscribeStep(g: Gateway, init: seq<Action>, x: Action, actions: seq<Action>, s: nat)
    requires Inv(g) && LogsFit(g.log, init) && StreamFitsHistory(g, init, s) && ItemsFit(g, init, s)
    requires Enabled(g, x) && Extends(actions, init, x) && x.Subscribe?
    ensures StreamFitsHistory(Apply(g, x), actions, s) && ItemsFit(Apply(g, x), actions, s)
  {
    ClosedFinished(g, x.id);
  }

  lemma ReceiveStep(g: Gateway, init: seq<Action>, x: Action, actions: seq<Action>, s: nat)
    requires StreamFitsHistory(g, init, s) && ItemsFit(g, init, s)
    requires x.Receive? && Enabled(g, x) && Extends(actions, init, x)
    requires g.hub.queues[x.stream][0].None? ==> g.streams[x.stream].task in g.tasks.finished
    ensures StreamFitsHistory(Apply(g, x), actions, s) && ItemsFit(Apply(g, x), actions, s)
  {
    ReceiveEffect(g, x.stream);
  }

  lemma ReceiveEffect(g: Gateway, s: nat)
    requires Enabled(g, Receive(s))
    ensures var h, st, item := Apply(g, Receive(s)), g.streams[s], g.hub.queues[s][0];
      && h.tasks == g.tasks
      && h.streams == g.streams[s := if item.None? then st.(ended := true)
                                     else st.(received := st.received + [item.value])]
  {
  }

  lemma CloseStep(g: Gateway, init: seq<Action>, x: Action, actions: seq<Action>, s: nat)
    requires StreamFitsHistory(g, init, s) && ItemsFit(g, init, s)
    requires x.Close? && Enabled(g, x) && Extends(actions, init, x)
    ensures StreamFitsHistory(Apply(g, x), actions, s) && ItemsFit(Apply(g, x), actions, s)
  {
  }

  lemma ClosedFinished(g: Gateway, id: string)
    requires Inv(g)
    ensures id in g.hub.closed <==> id in g.tasks.finished
  {
  }

  /** The other actions leave the streams alone, and a finished task stays finished. */
  lemma QuietStep(g: Gateway, x: Action)
    requires Enabled(g, x) && !x.Subscribe? && !x.Receive? && !x.Close?
    ensures Apply(g, x).streams == g.streams && g.tasks.finished <= Apply(g, x).tasks.finished
  {
  }

  lemma StepStream(g: Gateway, init: seq<Action>, x: Action, actions: seq<Action>, s: nat)
    requires Inv(g) && LogsFit(g.log, init) && StreamFitsHistory(g, init, s) && ItemsFit(g, init, s)
    requires Enabled(g, x) && Extends(actions, init, x)
    ensures StreamFitsHistory(Apply(g, x), actions, s) && ItemsFit(Apply(g, x), actions, s)
  {
    match x
    case Subscribe(_, _) => SubscribeStep(g, init, x, actions, s);
    case Receive(_) =>
      ReceiveItem(g, x.stream);
      ReceiveStep(g, init, x, actions, s);
    case Close(_, _) => CloseStep(g, init, x, actions, s);
    case _ => QuietStep(g, x);
  }

  /** Only a finished task sends the end marker. */
  lemma ReceiveItem(g: Gateway, s: nat)
    requires Inv(g) && Enabled(g, Receive(s))
    ensures g.hub.queues[s][0].None? ==> g.streams[s].task in g.tasks.finished
  {
    assert StreamFits(g.tasks.finished, g.log, g.hub, s, g.streams[s]);
  }

  lemma StepStreams(g: Gateway, init: seq<Action>, x: Action, actions: seq<Action>)
    requires Inv(g) && LogsFit(g.log, init) && StreamsFit(g, init) && Enabled(g, x) && Extends(actions, init, x)
    ensures StreamsFit(Apply(g, x), actions)
  {
    forall s ensures StreamFitsHistory(Apply(g, x), actions, s) && ItemsFit(Apply(g, x), actions, s) {
      StepStream(g, init, x, actions, s);
    }
  }

  /** Over every run: queue, workers, records, logs and streams are those the actions so far call for. */
  lemma {:induction false} GatewayFromHistory(max: int, actions: seq<Action>)
    requires Possible(max, actions)
    ensures Inv(After(max, actions)) && Fits(After(max, actions), actions)
  {
    if actions != [] {
      var init, x := actions[..|actions| - 1], actions[|actions| - 1];
      var g := After(max, init);
      GatewayFromHistory(max, init);
      ApplyKeepsInv(g, x);
      StepQueue(g, init, x, actions);
      StepWorkers(g, init, x, actions);
      StepRecords(g, init, x, actions);
      StepLogs(g, init, x, actions);
      StepStreams(g, init, x, actions);
    }
  }

  /** Every reachable state is reached by actions. */
  lemma ReachedByActions(max: int, g: Gateway) returns (actions: seq<Action>)
    requires Reachable(max, g)
    ensures Possible(max, actions) && After(max, actions) == g
  {
    var trace :| IsRun(max, trace) && trace[|trace| - 1] == g;
    actions := TraceActions(max, trace, |trace| - 1);
  }

  lemma {:induction false} TraceActions(max: int, trace: seq<Gateway>, k: nat) returns (actions: seq<Action>)
    requires IsRun(max, trace) && k < |trace|
    ensures Possible(max, actions) && After(max, actions) == trace[k]
  {
    if k == 0 {
      actions := [];
    } else {
      var before := TraceActions(max, trace, k - 1);
      assert Steps(trace[k - 1], trace[k]);
      var a :| Enabled(trace[k - 1], a) && trace[k] == Apply(trace[k - 1], a);
      actions := before + [a];
      assert actions[..|actions| - 1] == before;
    }
  }

  // ---- Outcomes ----

  /** Finishing a task records what the executor returned: the status by the error alone, result, error and worker. */
  lemma FinishRecordsOutcome(max: int, actions: seq<Action>, w: string, o: TaskOutcome)
    requires Possible(max, actions) && Enabled(After(max, actions), Finish(w, o))
    ensures var t := After(max, actions).tasks;
      RecordOf(Apply(After(max, actions), Finish(w, o)).tasks, t.held[w]) ==
        Some(Record(if o.error == "" then Completed else Failed, o.output, o.error, w))
  {
    GatewayFromHistory(max, actions);
    FinishRecords(After(max, actions).tasks, w, o);
  }

  /** The n-th action finished the task: its worker held it and its executor returned the outcome in the record. */
  ghost predicate FinishedBy(actions: seq<Action>, id: string, r: Record, n: nat) {
    && n < |actions| && actions[n].Finish? && HeldBy(actions[..n], actions[n].worker) == Some(id)
    && r == Outcome(actions[n].worker, actions[n].outcome)
  }

  lemma {:induction false} SomeFinish(actions: seq<Action>, id: string) returns (n: nat)
    requires RecordSince(actions, id).Some? && RecordSince(actions, id).value.status.Finished()
    ensures FinishedBy(actions, id, RecordSince(actions, id).value, n)
  {
    var last := |actions| - 1;
    var init := actions[..last];
    if actions[last].Finish? && HeldBy(init, actions[last].worker) == Some(id) {
      n := last;
    } else {
      n := SomeFinish(init, id);
      assert init[..n] == actions[..n] && init[n] == actions[n];
    }
  }

  /** In every reachable state each finished record, and the last event of its log, carry the outcome of a Finish. */
  lemma FinishedCarriesOutcome(max: int, actions: seq<Action>, id: string) returns (n: nat)
    requires Possible(max, actions)
    requires RecordOf(After(max, actions).tasks, id).Some? &&
      RecordOf(After(max, actions).tasks, id).value.status.Finished()
    ensures FinishedBy(actions, id, After(max, actions).tasks.records[id], n)
    ensures var log := LogOf(After(max, actions).log, id);
      |log| == 3 && log[2] == Event(id, Outcome(actions[n].worker, actions[n].outcome))
  {
    GatewayFromHistory(max, actions);
    n := SomeFinish(actions, id);
    var g := After(max, actions);
    assert Life(id, g.tasks.records[id], LogOf(g.log, id));
  }
}
