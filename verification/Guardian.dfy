/** The report queue of the tool guardian: batching, retry and escalation (youmi/coordinator/tool_guardian.py). */
module Guardian {
  import opened Common
  import opened Counting

  datatype Report = Report(id: string, tool: string)

  /** What processing one tool's reports comes to; the repair itself is an oracle. */
  datatype FixOutcome = UnknownTool | Changed | Unchanged

  datatype LogEntry = Effective(tool: string) | NoChange(tool: string) | Escalation(tool: string)

  const MAX_ATTEMPTS := 3

  datatype State = State(
    pending: seq<Report>,
    attempts: map<string, nat>,
    received: seq<Report>, fixed: seq<Report>, escalated: seq<Report>, unknown: seq<Report>,
    log: seq<LogEntry>)

  function Initial(): State {
    State([], map[], [], [], [], [], [])
  }

  // ---- Meaning ----

  function Attempts(s: State, tool: string): nat {
    if tool in s.attempts then s.attempts[tool] else 0
  }

  function Receive(s: State, r: Report): State {
    s.(pending := s.pending + [r], received := s.received + [r])
  }

  /** The tail of _process_tool_reports: settle, requeue or escalate. */
  function ProcessGroup(s: State, tool: string, reports: seq<Report>, o: FixOutcome): State {
    match o
    case UnknownTool => s.(unknown := s.unknown + reports)
    case Changed => s.(attempts := s.attempts - {tool}, fixed := s.fixed + reports, log := s.log + [Effective(tool)])
    case Unchanged =>
      var n := Attempts(s, tool) + 1;
      if n >= MAX_ATTEMPTS then
        s.(attempts := s.attempts - {tool}, escalated := s.escalated + reports,
           log := s.log + [NoChange(tool), Escalation(tool)])
      else s.(attempts := s.attempts[tool := n], pending := s.pending + reports, log := s.log + [NoChange(tool)])
  }

  /** Where a Python slice with bound n cuts a list of the given length; a negative bound counts from the end. */
  function Cut(n: int, length: nat): (c: nat)
    ensures c <= length
  {
    if n >= 0 then (if n <= length then n else length) else if length + n >= 0 then length + n else 0
  }

  /** The tools of a batch in order of first occurrence: the keys of the grouping dictionary. */
  function Tools(batch: seq<Report>): seq<string> {
    if batch == [] then []
    else
      var before, t := Tools(batch[..|batch| - 1]), batch[|batch| - 1].tool;
      if t in before then before else before + [t]
  }

  function Of(batch: seq<Report>, tool: string): seq<Report> {
    if batch == [] then []
    else Of(batch[..|batch| - 1], tool) + if batch[|batch| - 1].tool == tool then [batch[|batch| - 1]] else []
  }

  function ProcessGroups(s: State, tools: seq<string>, batch: seq<Report>, o: string -> FixOutcome): State {
    if tools == [] then s
    else
      var last := tools[|tools| - 1];
      ProcessGroup(ProcessGroups(s, tools[..|tools| - 1], batch, o), last, Of(batch, last), o(last))
  }

  function ProcessReports(s: State, n: int, o: string -> FixOutcome): State {
    if s.pending == [] then s
    else
      var cut := Cut(n, |s.pending|);
      var batch := s.pending[..cut];
      ProcessGroups(s.(pending := s.pending[cut..]), Tools(batch), batch, o)
  }

  // ---- Invariants ----

  /** A report ends as fixed only through an effective repair and as unknown only for a tool that does not exist. */
  lemma OutcomeSorts(s: State, tool: string, reports: seq<Report>, o: FixOutcome)
    ensures var t := ProcessGroup(s, tool, reports, o);
      && t.fixed == s.fixed + (if o == Changed then reports else [])
      && t.unknown == s.unknown + (if o == UnknownTool then reports else [])
      && (o != Unchanged ==> t.pending == s.pending && t.escalated == s.escalated)
      && (o == Changed ==> Attempts(t, tool) == 0) && (o == UnknownTool ==> t.attempts == s.attempts && t.log == s.log)
      && forall x :: x != tool ==> Attempts(t, x) == Attempts(s, x)
  {
  }

  /**
   * Three is the number: the third unchanged attempt on a tool escalates its reports, the first two queue them again.
   */
  lemma ThirdAttemptEscalates(s: State, tool: string, reports: seq<Report>)
    requires AttemptsInv(s)
    ensures var t := ProcessGroup(s, tool, reports, Unchanged);
      && Trail(s.log, tool) <= 2
      && (Trail(s.log, tool) == 2 ==>
            t.escalated == s.escalated + reports && t.pending == s.pending && Trail(t.log, tool) == 0)
      && (Trail(s.log, tool) < 2 ==>
            && t.escalated == s.escalated && t.pending == s.pending + reports
            && Attempts(t, tool) == Trail(s.log, tool) + 1)
  {
    assert Attempts(s, tool) == Trail(s.log, tool);
    var mid := s.log + [NoChange(tool)];
    TrailAppend(mid, Escalation(tool), tool);
    assert mid + [Escalation(tool)] == s.log + [NoChange(tool), Escalation(tool)];
  }

  /** Unchanged attempts on a tool since its last effective fix or escalation. */
  function Trail(log: seq<LogEntry>, tool: string): nat {
    if log == [] then 0
    else
      var e := log[|log| - 1];
      if e.tool != tool then Trail(log[..|log| - 1], tool)
      else if e.NoChange? then 1 + Trail(log[..|log| - 1], tool)
      else 0
  }

  ghost predicate AttemptsInv(s: State) {
    && (forall t :: t in s.attempts ==> 1 <= s.attempts[t] < MAX_ATTEMPTS)
    && (forall t :: Attempts(s, t) == Trail(s.log, t))
  }

  /** Every escalation follows exactly three unchanged attempts on its tool. */
  ghost predicate EscalationsJustified(log: seq<LogEntry>) {
    forall i :: 0 <= i < |log| && log[i].Escalation? ==> Trail(log[..i], log[i].tool) == MAX_ATTEMPTS
  }

  ghost predicate Conserved(s: State, inHand: multiset<Report>) {
    multiset(s.received) ==
      multiset(s.pending) + inHand + multiset(s.fixed) + multiset(s.escalated) + multiset(s.unknown)
  }

  ghost predicate Inv(s: State) {
    AttemptsInv(s) && EscalationsJustified(s.log) && Conserved(s, multiset{})
  }

  lemma TrailAppend(log: seq<LogEntry>, e: LogEntry, tool: string)
    ensures Trail(log + [e], tool) ==
      if e.tool != tool then Trail(log, tool) else if e.NoChange? then 1 + Trail(log, tool) else 0
  {
    assert (log + [e])[..|log|] == log;
  }

  lemma JustifiedAppend(log: seq<LogEntry>, e: LogEntry)
    requires EscalationsJustified(log)
    requires e.Escalation? ==> Trail(log, e.tool) == MAX_ATTEMPTS
    ensures EscalationsJustified(log + [e])
  {
    var log' := log + [e];
    forall i | 0 <= i < |log'| && log'[i].Escalation? ensures Trail(log'[..i], log'[i].tool) == MAX_ATTEMPTS {
      if i < |log| { assert log'[..i] == log[..i]; } else { assert log'[..i] == log; }
    }
  }

  lemma UnchangedKeepsAttempts(s: State, tool: string, reports: seq<Report>)
    requires AttemptsInv(s) && EscalationsJustified(s.log)
    ensures AttemptsInv(ProcessGroup(s, tool, reports, Unchanged))
    ensures EscalationsJustified(ProcessGroup(s, tool, reports, Unchanged).log)
  {
    var s', mid := ProcessGroup(s, tool, reports, Unchanged), s.log + [NoChange(tool)];
    JustifiedAppend(s.log, NoChange(tool));
    forall t ensures Trail(mid, t) == Attempts(s, t) + if t == tool then 1 else 0 {
      TrailAppend(s.log, NoChange(tool), t);
    }
    if Attempts(s, tool) + 1 >= MAX_ATTEMPTS {
      JustifiedAppend(mid, Escalation(tool));
      assert s'.log == mid + [Escalation(tool)];
      forall t ensures Attempts(s', t) == Trail(s'.log, t) { TrailAppend(mid, Escalation(tool), t); }
    }
  }

  lemma GroupKeepsAttempts(s: State, tool: string, reports: seq<Report>, o: FixOutcome)
    requires AttemptsInv(s) && EscalationsJustified(s.log)
    ensures AttemptsInv(ProcessGroup(s, tool, reports, o))
    ensures EscalationsJustified(ProcessGroup(s, tool, reports, o).log)
  {
    var s' := ProcessGroup(s, tool, reports, o);
    match o
    case UnknownTool =>
    case Changed =>
      JustifiedAppend(s.log, Effective(tool));
      forall t ensures Attempts(s', t) == Trail(s'.log, t) { TrailAppend(s.log, Effective(tool), t); }
    case Unchanged => UnchangedKeepsAttempts(s, tool, reports);
  }

  lemma GroupConserves(s: State, tool: string, reports: seq<Report>, o: FixOutcome, inHand: multiset<Report>)
    requires Conserved(s, inHand + multiset(reports))
    ensures Conserved(ProcessGroup(s, tool, reports, o), inHand)
  {
  }

  // ---- Grouping splits the batch ----

  lemma {:induction false} ToolsCover(batch: seq<Report>)
    ensures NoDuplicates(Tools(batch))
    ensures forall t :: t in Tools(batch) <==> exists i :: 0 <= i < |batch| && batch[i].tool == t
  {
    if batch != [] {
      var init, last := batch[..|batch| - 1], batch[|batch| - 1];
      ToolsCover(init);
      if last.tool !in Tools(init) { NoDuplicatesAppend(Tools(init), last.tool); }
      forall t ensures t in Tools(batch) <==> exists i :: 0 <= i < |batch| && batch[i].tool == t {
        if t in Tools(init) {
          var i :| 0 <= i < |init| && init[i].tool == t;
          assert batch[i].tool == t;
        } else if t == last.tool {
          assert batch[|batch| - 1].tool == t;
        } else {
          assert forall i :: 0 <= i < |init| ==> batch[i] == init[i];
        }
      }
    }
  }

  /** Where a tool is first reported; the length of the batch if it is not. */
  function FirstAt(batch: seq<Report>, tool: string): nat {
    if batch == [] then 0 else if batch[0].tool == tool then 0 else 1 + FirstAt(batch[1..], tool)
  }

  lemma {:induction false} FirstAtPrefix(batch: seq<Report>, tool: string, n: nat)
    requires n <= |batch|
    ensures (exists i :: 0 <= i < n && batch[i].tool == tool) ==> FirstAt(batch, tool) < n
    ensures (forall i :: 0 <= i < n ==> batch[i].tool != tool) ==> FirstAt(batch, tool) >= n
  {
    if n > 0 && batch[0].tool != tool {
      FirstAtPrefix(batch[1..], tool, n - 1);
      forall i | 0 <= i < n && batch[i].tool == tool ensures FirstAt(batch, tool) < n {
        assert batch[1..][i - 1].tool == tool;
      }
    }
  }

  /** The tools of a batch stand in the order in which they are first reported. */
  lemma {:induction false} ToolsByFirst(batch: seq<Report>, n: nat, i: nat, j: nat)
    requires n <= |batch| && i < j < |Tools(batch[..n])|
    ensures FirstAt(batch, Tools(batch[..n])[i]) < FirstAt(batch, Tools(batch[..n])[j])
  {
    var m := n - 1;
    var before := Tools(batch[..m]);
    BatchStep(batch, m, n);
    if j < |before| {
      ToolsByFirst(batch, m, i, j);
    } else {
      FirstFound(batch, m, before[i]);
      FirstFound(batch, m, batch[m].tool);
    }
  }

  lemma FirstFound(batch: seq<Report>, m: nat, tool: string)
    requires m <= |batch|
    ensures tool in Tools(batch[..m]) <==> FirstAt(batch, tool) < m
  {
    ToolsCover(batch[..m]);
    FirstAtPrefix(batch, tool, m);
    assert forall i :: 0 <= i < m ==> batch[..m][i] == batch[i];
    if tool in Tools(batch[..m]) {
      var i :| 0 <= i < m && batch[..m][i].tool == tool;
      assert batch[i].tool == tool;
    } else {
      forall i | 0 <= i < m ensures batch[i].tool != tool {
        assert batch[..m][i].tool != tool;
      }
    }
  }

  function IsOf(tool: string): Report -> bool {
    (r: Report) => r.tool == tool
  }

  /** The reports of a tool keep their order: each stands behind as many as were reported for the tool before it. */
  lemma {:induction false} OfInOrder(batch: seq<Report>, tool: string, i: nat)
    requires i < |batch| && batch[i].tool == tool
    ensures |Of(batch, tool)| == CountIf(batch, IsOf(tool)) > CountIf(batch[..i], IsOf(tool))
    ensures Of(batch, tool)[CountIf(batch[..i], IsOf(tool))] == batch[i]
  {
    var init := batch[..|batch| - 1];
    OfCount(init, tool);
    OfCount(batch, tool);
    if i < |batch| - 1 {
      OfInOrder(init, tool, i);
      assert init[..i] == batch[..i];
    }
  }

  lemma {:induction false} OfCount(batch: seq<Report>, tool: string)
    ensures |Of(batch, tool)| == CountIf(batch, IsOf(tool))
  {
    if batch != [] { OfCount(batch[..|batch| - 1], tool); }
  }

  /** The reports of the batch that belong to none of the given tools. */
  function Remaining(batch: seq<Report>, tools: seq<string>): multiset<Report> {
    if batch == [] then multiset{}
    else
      var last := batch[|batch| - 1];
      Remaining(batch[..|batch| - 1], tools) + if last.tool in tools then multiset{} else multiset{last}
  }

  lemma {:induction false} RemainingStep(batch: seq<Report>, tools: seq<string>, t: string)
    requires t !in tools
    ensures Remaining(batch, tools) == Remaining(batch, tools + [t]) + multiset(Of(batch, t))
  {
    if batch != [] {
      RemainingStep(batch[..|batch| - 1], tools, t);
    }
  }

  lemma {:induction false} RemainingAll(batch: seq<Report>, tools: seq<string>)
    ensures tools == [] ==> Remaining(batch, tools) == multiset(batch)
    ensures (forall i :: 0 <= i < |batch| ==> batch[i].tool in tools) ==> Remaining(batch, tools) == multiset{}
  {
    if batch != [] {
      RemainingAll(batch[..|batch| - 1], tools);
      assert batch == batch[..|batch| - 1] + [batch[|batch| - 1]];
    }
  }

  lemma {:induction false} GroupsKeepInv(s: State, tools: seq<string>, batch: seq<Report>, o: string -> FixOutcome)
    requires AttemptsInv(s) && EscalationsJustified(s.log) && NoDuplicates(tools)
    requires Conserved(s, multiset(batch))
    ensures var s' := ProcessGroups(s, tools, batch, o);
      && AttemptsInv(s') && EscalationsJustified(s'.log) && Conserved(s', Remaining(batch, tools))
      && s'.received == s.received
  {
    if tools == [] {
      RemainingAll(batch, tools);
    } else {
      var init, last := tools[..|tools| - 1], tools[|tools| - 1];
      assert tools == init + [last];
      NoDuplicatesSplit(init, [last]);
      GroupsKeepInv(s, init, batch, o);
      var mid := ProcessGroups(s, init, batch, o);
      RemainingStep(batch, init, last);
      GroupKeepsAttempts(mid, last, Of(batch, last), o(last));
      GroupConserves(mid, last, Of(batch, last), o(last), Remaining(batch, tools));
    }
  }

  /** Whatever the outcomes, one call loses no report and keeps the attempt counts exact. */
  lemma ProcessKeepsInv(s: State, n: int, o: string -> FixOutcome)
    requires Inv(s)
    ensures Inv(ProcessReports(s, n, o))
  {
    if s.pending != [] {
      var cut := Cut(n, |s.pending|);
      var batch := s.pending[..cut];
      var rest := s.(pending := s.pending[cut..]);
      assert s.pending == batch + rest.pending;
      BatchTaken(s, rest, batch);
      ToolsCover(batch);
      GroupsKeepInv(rest, Tools(batch), batch, o);
      RemainingAll(batch, Tools(batch));
    }
  }

  lemma BatchTaken(s: State, rest: State, batch: seq<Report>)
    requires Inv(s) && s.pending == batch + rest.pending && rest == s.(pending := rest.pending)
    ensures AttemptsInv(rest) && EscalationsJustified(rest.log) && Conserved(rest, multiset(batch))
  {
    assert multiset(s.pending) == multiset(batch) + multiset(rest.pending);
  }

  lemma ReceiveKeepsInv(s: State, r: Report)
    requires Inv(s)
    ensures Inv(Receive(s, r))
  {
  }

  datatype Call = ReceiveCall(report: Report) | ProcessCall(batchSize: int, outcomes: string -> FixOutcome)

  function After(calls: seq<Call>): State {
    if calls == [] then Initial()
    else
      var s := After(calls[..|calls| - 1]);
      match calls[|calls| - 1]
      case ReceiveCall(r) => Receive(s, r)
      case ProcessCall(n, o) => ProcessReports(s, n, o)
  }

  /** Over every run each received report is in exactly one place and attempts stay between one and two. */
  lemma {:induction false} RunInv(calls: seq<Call>)
    ensures Inv(After(calls))
  {
    if calls != [] {
      var s := After(calls[..|calls| - 1]);
      RunInv(calls[..|calls| - 1]);
      match calls[|calls| - 1]
      case ReceiveCall(r) => ReceiveKeepsInv(s, r);
      case ProcessCall(n, o) => ProcessKeepsInv(s, n, o);
    }
  }

  // ---- Draining ----

  /** Attempts left over all queued reports. */
  function Debt(reports: seq<Report>, s: State): int {
    if reports == [] then 0
    else Debt(reports[..|reports| - 1], s) + MAX_ATTEMPTS - Attempts(s, reports[|reports| - 1].tool)
  }

  lemma {:induction false} DebtConcat(a: seq<Report>, b: seq<Report>, s: State)
    ensures Debt(a + b, s) == Debt(a, s) + Debt(b, s)
  {
    if b == [] {
      assert a + b == a;
    } else {
      DebtConcat(a, b[..|b| - 1], s);
      assert (a + b)[..|a + b| - 1] == a + b[..|b| - 1];
    }
  }

  lemma {:induction false} DebtNonNegative(reports: seq<Report>, s: State)
    requires AttemptsInv(s)
    ensures Debt(reports, s) >= |reports|
  {
    if reports != [] { DebtNonNegative(reports[..|reports| - 1], s); }
  }

  /** The state t after requeueing: every tool has at least as many attempts as before. */
  lemma {:induction false} DebtShrinks(reports: seq<Report>, s: State, t: State)
    requires forall x :: Attempts(s, x) <= Attempts(t, x)
    ensures Debt(reports, t) <= Debt(reports, s)
  {
    if reports != [] { DebtShrinks(reports[..|reports| - 1], s, t); }
  }

  /** One more attempt on their common tool takes one off the debt of every report of a group. */
  lemma {:induction false} DebtOfGroup(batch: seq<Report>, tool: string, s: State, t: State)
    requires Attempts(t, tool) == Attempts(s, tool) + 1
    ensures Debt(Of(batch, tool), t) == Debt(Of(batch, tool), s) - |Of(batch, tool)|
  {
    if batch != [] {
      var init, last := batch[..|batch| - 1], batch[|batch| - 1];
      DebtOfGroup(init, tool, s, t);
      if last.tool == tool {
        DebtOne(Of(init, tool), last, s);
        DebtOne(Of(init, tool), last, t);
        assert Of(batch, tool) == Of(init, tool) + [last];
      } else {
        assert Of(batch, tool) == Of(init, tool);
      }
    }
  }

  lemma DebtOne(reports: seq<Report>, r: Report, s: State)
    ensures Debt(reports + [r], s) == Debt(reports, s) + MAX_ATTEMPTS - Attempts(s, r.tool)
  {
    assert (reports + [r])[..|reports|] == reports;
  }

  function CountRemaining(batch: seq<Report>, tools: seq<string>): nat {
    |Remaining(batch, tools)|
  }

  /** The part of the debt of a batch that belongs to none of the given tools. */
  function DebtRemaining(batch: seq<Report>, tools: seq<string>, s: State): int {
    if batch == [] then 0
    else
      var last := batch[|batch| - 1];
      var own := if last.tool in tools then 0 else MAX_ATTEMPTS - Attempts(s, last.tool);
      DebtRemaining(batch[..|batch| - 1], tools, s) + own
  }

  lemma {:induction false} DebtRemainingStep(batch: seq<Report>, tools: seq<string>, t: string, s: State)
    requires t !in tools
    ensures DebtRemaining(batch, tools, s) == DebtRemaining(batch, tools + [t], s) + Debt(Of(batch, t), s)
  {
    if batch != [] {
      var init, last := batch[..|batch| - 1], batch[|batch| - 1];
      DebtRemainingStep(init, tools, t, s);
      if last.tool == t {
        DebtOne(Of(init, t), last, s);
      } else {
        assert Of(batch, t) == Of(init, t);
      }
    }
  }

  lemma {:induction false} DebtRemainingAll(batch: seq<Report>, tools: seq<string>, s: State)
    ensures tools == [] ==> DebtRemaining(batch, tools, s) == Debt(batch, s)
    ensures (forall i :: 0 <= i < |batch| ==> batch[i].tool in tools) ==> DebtRemaining(batch, tools, s) == 0
  {
    if batch != [] { DebtRemainingAll(batch[..|batch| - 1], tools, s); }
  }

  /**
   * After some groups: either a report has left the queue for good, or all groups so far were requeued with one more
   * attempt each.
   */
  ghost predicate Progress(s: State, t: State, tools: seq<string>, batch: seq<Report>) {
    && |t.pending| + CountRemaining(batch, tools) <= |s.pending| + |batch|
    && (|t.pending| + CountRemaining(batch, tools) == |s.pending| + |batch| ==> AllRequeued(s, t, tools, batch))
  }

  ghost predicate AllRequeued(s: State, t: State, tools: seq<string>, batch: seq<Report>) {
    && (forall x :: Attempts(t, x) == Attempts(s, x) + if x in tools then 1 else 0)
    && Debt(t.pending, t) + DebtRemaining(batch, tools, s) + |batch| - CountRemaining(batch, tools)
         <= Debt(s.pending, s) + Debt(batch, s)
  }

  lemma RequeueDebt(s: State, t: State, t': State, last: string, n: nat, group: seq<Report>, batch: seq<Report>)
    requires t'.pending == t.pending + group && t'.attempts == t.attempts[last := n] && group == Of(batch, last)
    requires n == Attempts(t, last) + 1 && Attempts(t, last) == Attempts(s, last)
    ensures Debt(t'.pending, t') <= Debt(t.pending, t) + Debt(group, s) - |group|
  {
    DebtConcat(t.pending, group, t');
    DebtShrinks(t.pending, t, t');
    DebtOfGroup(batch, last, s, t');
  }

  lemma RequeueOne(s: State, t: State, t': State, last: string, n: nat, init: seq<string>, tools: seq<string>,
                   group: seq<Report>, batch: seq<Report>)
    requires AllRequeued(s, t, init, batch) && last !in init && tools == init + [last] && group == Of(batch, last)
    requires t'.pending == t.pending + group && t'.attempts == t.attempts[last := n] && n == Attempts(t, last) + 1
    requires CountRemaining(batch, init) == CountRemaining(batch, tools) + |group|
    ensures AllRequeued(s, t', tools, batch)
  {
    RequeueDebt(s, t, t', last, n, group, batch);
    DebtRemainingStep(batch, init, last, s);
  }

  lemma RequeueProgress(s: State, t: State, init: seq<string>, last: string, batch: seq<Report>)
    requires Progress(s, t, init, batch) && last !in init
    requires Attempts(t, last) + 1 < MAX_ATTEMPTS
    ensures Progress(s, ProcessGroup(t, last, Of(batch, last), Unchanged), init + [last], batch)
  {
    var group, tools, n := Of(batch, last), init + [last], Attempts(t, last) + 1;
    var t' := ProcessGroup(t, last, group, Unchanged);
    RemainingStep(batch, init, last);
    assert CountRemaining(batch, init) == CountRemaining(batch, tools) + |group|;
    assert t'.pending == t.pending + group && t'.attempts == t.attempts[last := n];
    if |t.pending| + CountRemaining(batch, init) == |s.pending| + |batch| {
      RequeueOne(s, t, t', last, n, init, tools, group, batch);
    }
  }

  lemma GroupProgress(s: State, t: State, init: seq<string>, last: string, batch: seq<Report>, o: FixOutcome)
    requires AttemptsInv(t) && Progress(s, t, init, batch) && last !in init && Of(batch, last) != []
    ensures Progress(s, ProcessGroup(t, last, Of(batch, last), o), init + [last], batch)
  {
    if o == Unchanged && Attempts(t, last) + 1 < MAX_ATTEMPTS {
      RequeueProgress(s, t, init, last, batch);
    } else {
      RemainingStep(batch, init, last);
      assert CountRemaining(batch, init) == CountRemaining(batch, init + [last]) + |Of(batch, last)|;
    }
  }

  lemma {:induction false} OfNonEmpty(batch: seq<Report>, i: nat)
    requires i < |batch|
    ensures Of(batch, batch[i].tool) != []
  {
    if i < |batch| - 1 { OfNonEmpty(batch[..|batch| - 1], i); }
  }

  lemma {:induction false} GroupsProgress(s: State, tools: seq<string>, batch: seq<Report>, o: string -> FixOutcome)
    requires AttemptsInv(s) && EscalationsJustified(s.log) && NoDuplicates(tools) && Conserved(s, multiset(batch))
    requires forall t :: t in tools ==> Of(batch, t) != []
    ensures Progress(s, ProcessGroups(s, tools, batch, o), tools, batch)
  {
    if tools == [] {
      RemainingAll(batch, []);
      DebtRemainingAll(batch, [], s);
    } else {
      var init, last := tools[..|tools| - 1], tools[|tools| - 1];
      assert tools == init + [last];
      NoDuplicatesSplit(init, [last]);
      GroupsProgress(s, init, batch, o);
      GroupsKeepInv(s, init, batch, o);
      GroupProgress(s, ProcessGroups(s, init, batch, o), init, last, batch, o(last));
    }
  }

  /** One call on a non-empty queue shortens it or leaves its length and uses up attempts. */
  lemma ProcessDecreases(s: State, n: nat, o: string -> FixOutcome)
    requires Inv(s) && n >= 1 && s.pending != []
    ensures var t := ProcessReports(s, n, o);
      |t.pending| < |s.pending| || (|t.pending| == |s.pending| && Debt(t.pending, t) < Debt(s.pending, s))
  {
    var cut := Cut(n, |s.pending|);
    var batch := s.pending[..cut];
    var rest := s.(pending := s.pending[cut..]);
    assert s.pending == batch + rest.pending;
    BatchTaken(s, rest, batch);
    BatchProgress(rest, ProcessReports(s, n, o), batch, o);
    DebtConcat(batch, rest.pending, s);
    DebtSame(batch, s, rest);
    DebtSame(rest.pending, s, rest);
  }

  lemma BatchProgress(rest: State, after: State, batch: seq<Report>, o: string -> FixOutcome)
    requires AttemptsInv(rest) && EscalationsJustified(rest.log) && Conserved(rest, multiset(batch)) && batch != []
    requires after == ProcessGroups(rest, Tools(batch), batch, o)
    ensures |after.pending| <= |rest.pending| + |batch|
    ensures |after.pending| == |rest.pending| + |batch| ==>
      Debt(after.pending, after) < Debt(rest.pending, rest) + Debt(batch, rest)
  {
    var tools := Tools(batch);
    ToolsCover(batch);
    ToolsReported(batch);
    GroupsProgress(rest, tools, batch, o);
    ProgressDone(rest, after, tools, batch);
  }

  lemma ToolsReported(batch: seq<Report>)
    ensures forall t :: t in Tools(batch) ==> Of(batch, t) != []
  {
    ToolsCover(batch);
    forall t | t in Tools(batch) ensures Of(batch, t) != [] {
      var i :| 0 <= i < |batch| && batch[i].tool == t;
      OfNonEmpty(batch, i);
    }
  }

  lemma ProgressDone(rest: State, after: State, tools: seq<string>, batch: seq<Report>)
    requires Progress(rest, after, tools, batch) && batch != []
    requires forall i :: 0 <= i < |batch| ==> batch[i].tool in tools
    ensures |after.pending| <= |rest.pending| + |batch|
    ensures |after.pending| == |rest.pending| + |batch| ==>
      Debt(after.pending, after) < Debt(rest.pending, rest) + Debt(batch, rest)
  {
    RemainingAll(batch, tools);
    DebtRemainingAll(batch, tools, rest);
  }

  lemma {:induction false} DebtSame(reports: seq<Report>, s: State, t: State)
    requires s.attempts == t.attempts
    ensures Debt(reports, s) == Debt(reports, t)
  {
    if reports != [] { DebtSame(reports[..|reports| - 1], s, t); }
  }

  /** The state after k calls with the given batch size, each with its own repair outcomes. */
  function Repeated(s: State, n: nat, rounds: nat -> (string -> FixOutcome), first: nat, k: nat): State
    decreases k
  {
    if k == 0 then s else Repeated(ProcessReports(s, n, rounds(first)), n, rounds, first + 1, k - 1)
  }

  /** With no new reports, repeated processing empties the queue whatever the repairs come to. */
  lemma {:induction false} QueueDrains(s: State, n: nat, rounds: nat -> (string -> FixOutcome), first: nat)
    returns (k: nat)
    requires Inv(s) && n >= 1
    ensures Repeated(s, n, rounds, first, k).pending == []
    decreases |s.pending|, Debt(s.pending, s)
  {
    DebtNonNegative(s.pending, s);
    if s.pending == [] {
      k := 0;
    } else {
      var t := ProcessReports(s, n, rounds(first));
      ProcessDecreases(s, n, rounds(first));
      ProcessKeepsInv(s, n, rounds(first));
      DebtNonNegative(t.pending, t);
      var next := first + 1;
      var k' := QueueDrains(t, n, rounds, next);
      k := k' + 1;
      RepeatedStep(s, n, rounds, first, next, k, k');
    }
  }

  lemma RepeatedStep(s: State, n: nat, rounds: nat -> (string -> FixOutcome), first: nat, next: nat, k: nat, k': nat)
    requires next == first + 1 && k == k' + 1
    ensures Repeated(s, n, rounds, first, k) == Repeated(ProcessReports(s, n, rounds(first)), n, rounds, next, k')
  {
    assert k - 1 == k';
  }

  // ---- The object ----

  class ToolGuardian {
    var pending: seq<Report>
    var attempts: map<string, nat>
    var reports: map<string, seq<Report>>  // report history per tool
    ghost var history: State

    ghost predicate Valid()
      reads this
    {
      history.pending == pending && history.attempts == attempts && Inv(history)
    }

    constructor ()
      ensures Valid() && history == Initial()
    {
      pending, attempts, reports := [], map[], map[];
      history := Initial();
    }

    method ReceiveReport(r: Report)
      requires Valid()
      modifies this
      ensures Valid() && history == Receive(old(history), r)
      ensures pending == old(pending) + [r] && attempts == old(attempts)
      ensures reports == old(reports)[r.tool := (if r.tool in old(reports) then old(reports)[r.tool] else []) + [r]]
    {
      reports := reports[r.tool := (if r.tool in reports then reports[r.tool] else []) + [r]];
      pending := pending + [r];
      history := Receive(history, r);
    }

    /** One round; the oracle says what the repair of each tool comes to. */
    method Process(batchSize: int, outcomes: string -> FixOutcome)
      requires Valid()
      modifies this`pending, this`attempts, this`history
      ensures Valid() && history == ProcessReports(old(history), batchSize, outcomes)
    {
      ProcessKeepsInv(history, batchSize, outcomes);
      if pending == [] {
        return;
      }
      var cut := Cut(batchSize, |pending|);
      var batch := pending[..cut];
      pending := pending[cut..];
      ghost var start := history.(pending := pending);
      ghost var end := ProcessReports(history, batchSize, outcomes);
      SettleAll(batch, start, outcomes);
      assert end == ProcessGroups(start, Tools(batch), batch, outcomes);
      history := end;
    }

    method SettleAll(batch: seq<Report>, ghost start: State, outcomes: string -> FixOutcome)
      requires start.pending == pending && start.attempts == attempts
      modifies this`pending, this`attempts
      ensures var end := ProcessGroups(start, Tools(batch), batch, outcomes);
        pending == end.pending && attempts == end.attempts
    {
      var keys, grouped := GroupReports(batch);
      ghost var now := start;
      for k := 0 to |keys|
        invariant now == ProcessGroups(start, keys[..k], batch, outcomes)
        invariant now.pending == pending && now.attempts == attempts
      {
        GroupsStep(start, keys, k, k + 1, batch, outcomes);
        Settle(keys[k], grouped[keys[k]], outcomes(keys[k]), now);
        now := ProcessGroup(now, keys[k], Of(batch, keys[k]), outcomes(keys[k]));
      }
      assert keys[..|keys|] == keys;
    }

    method Settle(tool: string, group: seq<Report>, o: FixOutcome, ghost now: State)
      requires now.pending == pending && now.attempts == attempts
      modifies this`pending, this`attempts
      ensures var next := ProcessGroup(now, tool, group, o); pending == next.pending && attempts == next.attempts
      ensures var failed := (if tool in old(attempts) then old(attempts)[tool] else 0) + 1;
        match o
        case UnknownTool => pending == old(pending) && attempts == old(attempts)
        case Changed => pending == old(pending) && attempts == old(attempts) - {tool}
        case Unchanged =>
          if failed < 3 then pending == old(pending) + group && attempts == old(attempts)[tool := failed]
          else pending == old(pending) && attempts == old(attempts) - {tool}
    {
      match o
      case UnknownTool =>
      case Changed =>
        attempts := attempts - {tool};
      case Unchanged =>
        var n := (if tool in attempts then attempts[tool] else 0) + 1;
        attempts := attempts[tool := n];
        if n >= MAX_ATTEMPTS {
          attempts := attempts - {tool};
          assert attempts == old(attempts) - {tool};
        } else {
          pending := pending + group;
        }
    }
  }

  lemma GroupsStep(s: State, tools: seq<string>, k: nat, j: nat, batch: seq<Report>, o: string -> FixOutcome)
    requires k < |tools| && j == k + 1
    ensures ProcessGroups(s, tools[..j], batch, o) ==
      ProcessGroup(ProcessGroups(s, tools[..k], batch, o), tools[k], Of(batch, tools[k]), o(tools[k]))
  {
    assert tools[..j][..k] == tools[..k];
  }

  lemma BatchStep(batch: seq<Report>, i: nat, j: nat)
    requires i < |batch| && j == i + 1
    ensures Tools(batch[..j]) ==
      if batch[i].tool in Tools(batch[..i]) then Tools(batch[..i]) else Tools(batch[..i]) + [batch[i].tool]
  {
    assert batch[..j][..i] == batch[..i];
  }

  lemma OfStep(batch: seq<Report>, i: nat, j: nat, t: string)
    requires i < |batch| && j == i + 1
    ensures Of(batch[..j], t) == Of(batch[..i], t) + if batch[i].tool == t then [batch[i]] else []
  {
    assert batch[..j][..i] == batch[..i];
  }

  ghost predicate Groups(grouped: map<string, seq<Report>>, batch: seq<Report>) {
    forall t :: Of(batch, t) == GroupOf(grouped, t)
  }

  lemma GroupStep(batch: seq<Report>, i: nat, j: nat, before: map<string, seq<Report>>, after: map<string, seq<Report>>)
    requires i < |batch| && j == i + 1 && Groups(before, batch[..i])
    requires after == before[batch[i].tool := GroupOf(before, batch[i].tool) + [batch[i]]]
    ensures Groups(after, batch[..j])
  {
    forall t ensures Of(batch[..j], t) == GroupOf(after, t) {
      OfStep(batch, i, j, t);
      assert Of(batch[..i], t) == GroupOf(before, t);
    }
  }

  /** The grouping dictionary: keys in order of first occurrence, values in batch order. */
  method GroupReports(batch: seq<Report>) returns (keys: seq<string>, grouped: map<string, seq<Report>>)
    ensures keys == Tools(batch)
    ensures forall i, j :: 0 <= i < j < |keys| ==> FirstAt(batch, keys[i]) < FirstAt(batch, keys[j])
    ensures forall t :: t in keys ==> t in grouped && grouped[t] == Of(batch, t)
  {
    keys, grouped := [], map[];
    var i := 0;
    while i < |batch|
      invariant i <= |batch| && keys == Tools(batch[..i])
      invariant forall t :: t in keys <==> t in grouped
      invariant Groups(grouped, batch[..i])
    {
      var r, j := batch[i], i + 1;
      ghost var before := grouped;
      BatchStep(batch, i, j);
      if r.tool !in grouped {
        keys := keys + [r.tool];
      }
      grouped := grouped[r.tool := GroupOf(grouped, r.tool) + [r]];
      GroupStep(batch, i, j, before, grouped);
      i := j;
    }
    assert batch[..|batch|] == batch;
    forall i, j | 0 <= i < j < |keys| ensures FirstAt(batch, keys[i]) < FirstAt(batch, keys[j]) {
      ToolsByFirst(batch, |batch|, i, j);
    }
    forall t | t in keys ensures grouped[t] == Of(batch, t) {
      assert Of(batch, t) == GroupOf(grouped, t);
    }
  }

  /** defaultdict lookup. */
  function GroupOf(grouped: map<string, seq<Report>>, t: string): seq<Report> {
    if t in grouped then grouped[t] else []
  }
}
