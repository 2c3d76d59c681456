/**
 * Rounds of the tool guardian split at their awaits: reports arrive and other rounds run while one awaits a repair, and
 * an exception that escapes a repair ends its round (process_reports in youmi/coordinator/tool_guardian.py).
 */
module GuardianRounds {
  import opened Common
  import opened Guardian

  /** A running round: its batch and the tools already dealt with. */
  datatype Round = Round(batch: seq<Report>, settled: seq<string>)

  datatype Live = Live(s: State, rounds: seq<Round>, lost: multiset<Report>)

  datatype Step =
    | Arrive(report: Report)
    | Begin(batchSize: int)
    | Settle(round: nat, outcome: FixOutcome)
    | Escape(round: nat)  // the repair of the next tool raises

  predicate Underway(r: Round) {
    |r.settled| < |Tools(r.batch)|
  }

  function NextTool(r: Round): string
    requires Underway(r)
  {
    Tools(r.batch)[|r.settled|]
  }

  predicate Enabled(l: Live, x: Step) {
    match x
    case Arrive(_) => true
    case Begin(_) => l.s.pending != []
    case Settle(i, _) => i < |l.rounds| && Underway(l.rounds[i])
    case Escape(i) => i < |l.rounds| && Underway(l.rounds[i])
  }

  function Apply(l: Live, x: Step): Live
    requires Enabled(l, x)
  {
    match x
    case Arrive(r) => l.(s := Receive(l.s, r))
    case Begin(n) =>
      var cut := Cut(n, |l.s.pending|);
      l.(s := l.s.(pending := l.s.pending[cut..]), rounds := l.rounds + [Round(l.s.pending[..cut], [])])
    case Settle(i, o) =>
      var r := l.rounds[i];
      l.(s := ProcessGroup(l.s, NextTool(r), Of(r.batch, NextTool(r)), o),
         rounds := l.rounds[i := r.(settled := r.settled + [NextTool(r)])])
    case Escape(i) =>
      var r := l.rounds[i];
      l.(rounds := l.rounds[i := Round([], [])], lost := l.lost + Remaining(r.batch, r.settled))
  }

  function Start(): Live {
    Live(Initial(), [], multiset{})
  }

  /** The reports that running rounds hold. */
  function InHand(rounds: seq<Round>): multiset<Report> {
    if rounds == [] then multiset{}
    else
      var last := rounds[|rounds| - 1];
      InHand(rounds[..|rounds| - 1]) + Remaining(last.batch, last.settled)
  }

  ghost predicate RoundInv(r: Round) {
    r.settled <= Tools(r.batch)
  }

  ghost predicate LiveInv(l: Live) {
    && AttemptsInv(l.s) && EscalationsJustified(l.s.log)
    && Conserved(l.s, InHand(l.rounds) + l.lost)
    && forall i :: 0 <= i < |l.rounds| ==> RoundInv(l.rounds[i])
  }

  /** Replacing one round moves its reports out of, or into, the hands of the rounds. */
  lemma {:induction false} InHandUpdate(rounds: seq<Round>, i: nat, r: Round)
    requires i < |rounds|
    ensures InHand(rounds[i := r]) + Remaining(rounds[i].batch, rounds[i].settled) ==
      InHand(rounds) + Remaining(r.batch, r.settled)
  {
    var n := |rounds| - 1;
    var init, changed := rounds[..n], rounds[i := r];
    var before, after := Remaining(rounds[i].batch, rounds[i].settled), Remaining(r.batch, r.settled);
    if i < n {
      InHandUpdate(init, i, r);
      assert changed[..n] == init[i := r] && changed[n] == rounds[n];
      AddCommon(InHand(init[i := r]), InHand(init), Remaining(rounds[n].batch, rounds[n].settled), before, after);
    } else {
      assert changed[..n] == init && changed[n] == r;
      Exchange(InHand(init), before, after);
    }
  }

  lemma AddCommon<T>(a: multiset<T>, b: multiset<T>, x: multiset<T>, y: multiset<T>, z: multiset<T>)
    requires a + y == b + z
    ensures (a + x) + y == (b + x) + z
  {
    assert (a + x) + y == (a + y) + x && (b + x) + z == (b + z) + x;
  }

  lemma Exchange<T>(a: multiset<T>, x: multiset<T>, y: multiset<T>)
    ensures (a + x) + y == (a + y) + x
  {
  }

  lemma SettleMoves(rounds: seq<Round>, i: nat, next: Round)
    requires i < |rounds| && RoundInv(rounds[i]) && Underway(rounds[i])
    requires next == rounds[i].(settled := rounds[i].settled + [NextTool(rounds[i])])
    ensures RoundInv(next)
    ensures InHand(rounds) == InHand(rounds[i := next]) + multiset(Of(rounds[i].batch, NextTool(rounds[i])))
  {
    var r, tools := rounds[i], Tools(rounds[i].batch);
    var k := |r.settled|;
    NextIsNew(r);
    assert next.settled == tools[..k + 1];
    RemainingStep(r.batch, r.settled, tools[k]);
    InHandUpdate(rounds, i, next);
    var group, rest := multiset(Of(r.batch, tools[k])), Remaining(next.batch, next.settled);
    var after := InHand(rounds[i := next]);
    assert after + (rest + group) == InHand(rounds) + rest;
    CancelRest(after + group, InHand(rounds), rest);
  }

  lemma CancelRest<T>(m: multiset<T>, n: multiset<T>, rest: multiset<T>)
    requires m + rest == n + rest
    ensures m == n
  {
    assert m == (m + rest) - rest;
    assert n == (n + rest) - rest;
  }

  lemma SettleKeeps(l: Live, i: nat, o: FixOutcome)
    requires LiveInv(l) && Enabled(l, Settle(i, o))
    ensures LiveInv(Apply(l, Settle(i, o)))
  {
    var r := l.rounds[i];
    var t, next := NextTool(r), r.(settled := r.settled + [NextTool(r)]);
    var group, hand := Of(r.batch, t), InHand(l.rounds[i := next]) + l.lost;
    SettleMoves(l.rounds, i, next);
    GroupKeepsAttempts(l.s, t, group, o);
    assert InHand(l.rounds) + l.lost == hand + multiset(group);
    GroupConserves(l.s, t, group, o, hand);
  }

  /** An escaping exception loses exactly the reports of its round not yet dealt with, and there always are some. */
  lemma EscapeLoses(l: Live, i: nat)
    requires LiveInv(l) && Enabled(l, Escape(i))
    ensures LiveInv(Apply(l, Escape(i))) && Apply(l, Escape(i)).s == l.s
    ensures var left := Remaining(l.rounds[i].batch, l.rounds[i].settled);
      && Apply(l, Escape(i)).lost == l.lost + left && multiset(Of(l.rounds[i].batch, NextTool(l.rounds[i]))) <= left
      && InHand(l.rounds) == InHand(Apply(l, Escape(i)).rounds) + left && left != multiset{}
  {
    EscapeMoves(l.rounds, i);
    var left, hand := Remaining(l.rounds[i].batch, l.rounds[i].settled), InHand(Apply(l, Escape(i)).rounds);
    Reassociate(hand, left, l.lost);
  }

  lemma Reassociate<T>(a: multiset<T>, b: multiset<T>, c: multiset<T>)
    ensures (a + b) + c == a + (c + b)
  {
  }

  lemma EscapeMoves(rounds: seq<Round>, i: nat)
    requires i < |rounds| && RoundInv(rounds[i]) && Underway(rounds[i])
    ensures var left := Remaining(rounds[i].batch, rounds[i].settled);
      && InHand(rounds) == InHand(rounds[i := Round([], [])]) + left
      && multiset(Of(rounds[i].batch, NextTool(rounds[i]))) <= left && left != multiset{}
  {
    var r := rounds[i];
    InHandUpdate(rounds, i, Round([], []));
    NextIsNew(r);
    RemainingStep(r.batch, r.settled, NextTool(r));
    NextReported(r);
  }

  lemma NextReported(r: Round)
    requires Underway(r)
    ensures Of(r.batch, NextTool(r)) != []
  {
    ToolsReported(r.batch);
  }

  lemma NextIsNew(r: Round)
    requires RoundInv(r) && Underway(r)
    ensures NextTool(r) !in r.settled
  {
    ToolsCover(r.batch);
    forall j | 0 <= j < |r.settled| ensures r.settled[j] != NextTool(r) {
      assert r.settled[j] == Tools(r.batch)[j];
    }
  }

  lemma BeginMoves(rounds: seq<Round>, pending: seq<Report>, cut: nat)
    requires cut <= |pending|
    ensures multiset(pending) + InHand(rounds) ==
      multiset(pending[cut..]) + InHand(rounds + [Round(pending[..cut], [])])
  {
    var r := Round(pending[..cut], []);
    assert pending == pending[..cut] + pending[cut..];
    assert (rounds + [r])[..|rounds|] == rounds;
    RemainingAll(pending[..cut], []);
    assert InHand(rounds + [r]) == InHand(rounds) + multiset(pending[..cut]);
  }

  lemma ConservedMove(s: State, pending: seq<Report>, a: multiset<Report>, b: multiset<Report>)
    requires Conserved(s, a) && multiset(s.pending) + a == multiset(pending) + b
    ensures Conserved(s.(pending := pending), b)
  {
  }

  lemma BeginConserves(l: Live, n: int)
    requires LiveInv(l) && Enabled(l, Begin(n))
    ensures var m := Apply(l, Begin(n)); Conserved(m.s, InHand(m.rounds) + l.lost)
  {
    BeginMoves(l.rounds, l.s.pending, Cut(n, |l.s.pending|));
    var m := Apply(l, Begin(n));
    AddSame(multiset(l.s.pending), InHand(l.rounds), multiset(m.s.pending), InHand(m.rounds), l.lost);
    ConservedMove(l.s, m.s.pending, InHand(l.rounds) + l.lost, InHand(m.rounds) + l.lost);
  }

  lemma AttemptsFrame(s: State, pending: seq<Report>)
    requires AttemptsInv(s)
    ensures AttemptsInv(s.(pending := pending))
  {
    var t := s.(pending := pending);
    forall x ensures Attempts(t, x) == Trail(t.log, x) {
      assert Attempts(s, x) == Trail(s.log, x);
    }
  }

  lemma BeginKeeps(l: Live, n: int)
    requires LiveInv(l) && Enabled(l, Begin(n))
    ensures LiveInv(Apply(l, Begin(n)))
  {
    BeginConserves(l, n);
    var m := Apply(l, Begin(n));
    AttemptsFrame(l.s, m.s.pending);
    forall i | 0 <= i < |m.rounds| ensures RoundInv(m.rounds[i]) {
      if i < |l.rounds| { assert RoundInv(l.rounds[i]); }
    }
  }

  lemma AddSame<T>(a: multiset<T>, b: multiset<T>, c: multiset<T>, d: multiset<T>, x: multiset<T>)
    requires a + b == c + d
    ensures a + (b + x) == c + (d + x)
  {
    assert a + (b + x) == (a + b) + x && c + (d + x) == (c + d) + x;
  }

  lemma ApplyKeepsLive(l: Live, x: Step)
    requires LiveInv(l) && Enabled(l, x)
    ensures LiveInv(Apply(l, x))
  {
    match x
    case Arrive(r) =>
    case Begin(n) => BeginKeeps(l, n);
    case Settle(i, o) => SettleKeeps(l, i, o);
    case Escape(i) => EscapeLoses(l, i);
  }

  /**
   * A round takes the oldest reports and no others: as many as asked for, or all there are; a negative number leaves
   * that many of the newest in the queue, as a Python slice does.
   */
  lemma BeginTakesOldest(l: Live, n: int)
    requires Enabled(l, Begin(n))
    ensures var m, length := Apply(l, Begin(n)), |l.s.pending|;
      && |m.rounds| == |l.rounds| + 1 && m.rounds[..|l.rounds|] == l.rounds && m.lost == l.lost
      && var round := m.rounds[|l.rounds|];
        && round.settled == [] && round.batch + m.s.pending == l.s.pending && m.s == l.s.(pending := m.s.pending)
        && (n >= 0 ==> |round.batch| == n || (|round.batch| == length && length < n))
        && (n < 0 ==> |m.s.pending| == -n || (|m.s.pending| == length && length < -n))
  {
  }

  // ---- Every run ----

  /** A step that is not possible changes nothing. */
  function Next(l: Live, x: Step): Live {
    if Enabled(l, x) then Apply(l, x) else l
  }

  function Run(l: Live, steps: seq<Step>): Live {
    if steps == [] then l else Next(Run(l, steps[..|steps| - 1]), steps[|steps| - 1])
  }

  function After(steps: seq<Step>): Live {
    Run(Start(), steps)
  }

  /** Every step is possible when it is taken. */
  ghost predicate Possible(steps: seq<Step>) {
    forall k :: 0 <= k < |steps| ==> Enabled(After(steps[..k]), steps[k])
  }

  /**
   * After any steps, with reports arriving between the awaits of any number of rounds and repairs that raise, each
   * received report is in exactly one of pending, in hand, fixed, escalated, unknown-tool and lost, and the attempts
   * are exact.
   */
  lemma {:induction false} LiveRunInv(steps: seq<Step>)
    ensures LiveInv(After(steps))
  {
    if steps != [] {
      var init, last := steps[..|steps| - 1], steps[|steps| - 1];
      LiveRunInv(init);
      if Enabled(After(init), last) { ApplyKeepsLive(After(init), last); }
    }
  }

  /** A step loses nothing if and only if no exception escapes in it. */
  lemma LosesIffEscape(l: Live, x: Step)
    requires LiveInv(l) && Enabled(l, x)
    ensures l.lost <= Apply(l, x).lost
    ensures Apply(l, x).lost == l.lost <==> !x.Escape?
  {
    if x.Escape? {
      EscapeLoses(l, x.round);
      var left := Remaining(l.rounds[x.round].batch, l.rounds[x.round].settled);
      assert |l.lost + left| == |l.lost| + |left|;
    }
  }

  lemma LosesNext(l: Live, x: Step)
    requires LiveInv(l) && Enabled(l, x)
    ensures Next(l, x).lost == multiset{} <==> l.lost == multiset{} && !x.Escape?
  {
    LosesIffEscape(l, x);
  }

  lemma PossiblePrefix(steps: seq<Step>, n: nat)
    requires Possible(steps) && n <= |steps|
    ensures Possible(steps[..n])
  {
    forall k | 0 <= k < n ensures Enabled(After(steps[..n][..k]), steps[..n][k]) {
      assert steps[..n][..k] == steps[..k];
    }
  }

  /** Over a whole run no report is lost if and only if no exception escapes. */
  lemma {:induction false} NothingLostIffNoEscape(steps: seq<Step>)
    requires Possible(steps)
    ensures After(steps).lost == multiset{} <==> NoEscape(steps)
  {
    if steps != [] {
      var n := |steps| - 1;
      var init, last := steps[..n], steps[n];
      PossiblePrefix(steps, n);
      NothingLostIffNoEscape(init);
      LiveRunInv(init);
      LosesNext(After(init), last);
      NoEscapeStep(steps, n);
    }
  }

  ghost predicate NoEscape(steps: seq<Step>) {
    forall k :: 0 <= k < |steps| ==> !steps[k].Escape?
  }

  lemma NoEscapeStep(steps: seq<Step>, n: nat)
    requires |steps| == n + 1
    ensures NoEscape(steps) <==> NoEscape(steps[..n]) && !steps[n].Escape?
  {
    assert forall k :: 0 <= k < n ==> steps[..n][k] == steps[k];
  }

  lemma RunOneMore(l: Live, steps: seq<Step>, x: Step)
    ensures Run(l, steps + [x]) == Next(Run(l, steps), x)
  {
    assert (steps + [x])[..|steps|] == steps;
  }

  /** The first report of all: its round begins, the repair raises, and the report is nowhere but lost. */
  lemma EscapeRun(r: Report)
    ensures Possible([Arrive(r), Begin(1), Escape(0)])
    ensures var end := After([Arrive(r), Begin(1), Escape(0)]);
      end.lost == multiset{r} && end.s == Receive(Initial(), r).(pending := [])
  {
    var a, b, c := [Arrive(r)], [Arrive(r), Begin(1)], [Arrive(r), Begin(1), Escape(0)];
    var first, second, third := Arrive(r), Begin(1), Escape(0);
    RunOneMore(Start(), [], first);
    RunOneMore(Start(), a, second);
    RunOneMore(Start(), b, third);
    assert a == [] + [first] && b == a + [second] && c == b + [third];
    assert c[..0] == [] && c[..1] == a && c[..2] == b;
    OneReport(r);
    var m := After(a);
    assert m.s.pending == [r] && m.s.pending[1..] == [] && m.s.pending[..1] == [r];
    assert After(b).rounds == [Round([r], [])];
  }

  lemma OneReport(r: Report)
    ensures Tools([r]) == [r.tool] && Remaining([r], []) == multiset{r}
  {
    assert [r][..0] == [];
  }

  // ---- Draining ----

  /** When every round has ended, nothing is in hand. */
  lemma {:induction false} NothingInHand(rounds: seq<Round>)
    requires forall i :: 0 <= i < |rounds| ==> RoundInv(rounds[i]) && !Underway(rounds[i])
    ensures InHand(rounds) == multiset{}
  {
    if rounds != [] {
      var last := rounds[|rounds| - 1];
      assert RoundInv(last) && last.settled == Tools(last.batch);
      ToolsCover(last.batch);
      RemainingAll(last.batch, last.settled);
      NothingInHand(rounds[..|rounds| - 1]);
    }
  }

  /** Attempts left over all reports that running rounds hold. */
  function HandDebt(rounds: seq<Round>, s: State): int {
    if rounds == [] then 0
    else
      var last := rounds[|rounds| - 1];
      HandDebt(rounds[..|rounds| - 1], s) + DebtRemaining(last.batch, last.settled, s)
  }

  function Held(l: Live): nat {
    |l.s.pending| + |InHand(l.rounds)|
  }

  function DebtLeft(l: Live): int {
    Debt(l.s.pending, l.s) + HandDebt(l.rounds, l.s)
  }

  /** Lexicographic: reports queued or in hand, their attempts left, reports queued. */
  ghost predicate Closer(m: Live, l: Live) {
    || Held(m) < Held(l)
    || (Held(m) == Held(l) && DebtLeft(m) < DebtLeft(l))
    || (Held(m) == Held(l) && DebtLeft(m) == DebtLeft(l) && |m.s.pending| < |l.s.pending|)
  }

  /** A possible step that processes reports. */
  predicate Works(l: Live, x: Step) {
    Enabled(l, x) && !x.Arrive? && (x.Begin? ==> x.batchSize >= 1)
  }

  lemma {:induction false} RemainingMonotone(batch: seq<Report>, tools: seq<string>, s: State, t: State)
    requires forall x :: Attempts(s, x) <= Attempts(t, x)
    ensures DebtRemaining(batch, tools, t) <= DebtRemaining(batch, tools, s)
  {
    if batch != [] { RemainingMonotone(batch[..|batch| - 1], tools, s, t); }
  }

  lemma {:induction false} RemainingNonNegative(batch: seq<Report>, tools: seq<string>, s: State)
    requires AttemptsInv(s)
    ensures DebtRemaining(batch, tools, s) >= 0
  {
    if batch != [] { RemainingNonNegative(batch[..|batch| - 1], tools, s); }
  }

  lemma {:induction false} HandDebtMonotone(rounds: seq<Round>, s: State, t: State)
    requires forall x :: Attempts(s, x) <= Attempts(t, x)
    ensures HandDebt(rounds, t) <= HandDebt(rounds, s)
  {
    if rounds != [] {
      var last := rounds[|rounds| - 1];
      HandDebtMonotone(rounds[..|rounds| - 1], s, t);
      RemainingMonotone(last.batch, last.settled, s, t);
    }
  }

  lemma {:induction false} HandDebtNonNegative(rounds: seq<Round>, s: State)
    requires AttemptsInv(s)
    ensures HandDebt(rounds, s) >= 0
  {
    if rounds != [] {
      var last := rounds[|rounds| - 1];
      HandDebtNonNegative(rounds[..|rounds| - 1], s);
      RemainingNonNegative(last.batch, last.settled, s);
    }
  }

  lemma {:induction false} HandDebtUpdate(rounds: seq<Round>, i: nat, r: Round, s: State)
    requires i < |rounds|
    ensures HandDebt(rounds[i := r], s) ==
      HandDebt(rounds, s) - DebtRemaining(rounds[i].batch, rounds[i].settled, s) + DebtRemaining(r.batch, r.settled, s)
  {
    var n := |rounds| - 1;
    var init, changed := rounds[..n], rounds[i := r];
    if i < n {
      HandDebtUpdate(init, i, r, s);
      assert changed[..n] == init[i := r] && changed[n] == rounds[n];
    } else {
      assert changed[..n] == init && changed[n] == r;
    }
  }

  /** Beginning a round moves reports from the queue into its hands. */
  lemma BeginCloser(l: Live, n: int)
    requires LiveInv(l) && Works(l, Begin(n))
    ensures Closer(Apply(l, Begin(n)), l)
  {
    var m, cut := Apply(l, Begin(n)), Cut(n, |l.s.pending|);
    BeginTakes(l, m, cut);
  }

  lemma BeginTakes(l: Live, m: Live, cut: nat)
    requires 1 <= cut <= |l.s.pending| && m.s == l.s.(pending := l.s.pending[cut..])
    requires m.rounds == l.rounds + [Round(l.s.pending[..cut], [])]
    ensures Held(m) == Held(l) && DebtLeft(m) == DebtLeft(l) && |m.s.pending| < |l.s.pending|
  {
    var taken, rest := l.s.pending[..cut], l.s.pending[cut..];
    BeginMoves(l.rounds, l.s.pending, cut);
    HeldSame(l.s.pending, InHand(l.rounds), rest, InHand(m.rounds));
    assert l.s.pending == taken + rest;
    BeginDebt(l.s, m.s, l.rounds, taken, rest);
  }

  lemma HeldSame(pending: seq<Report>, hand: multiset<Report>, rest: seq<Report>, more: multiset<Report>)
    requires multiset(pending) + hand == multiset(rest) + more
    ensures |pending| + |hand| == |rest| + |more|
  {
    assert |multiset(pending) + hand| == |pending| + |hand| && |multiset(rest) + more| == |rest| + |more|;
  }

  lemma BeginDebt(s: State, t: State, rounds: seq<Round>, taken: seq<Report>, rest: seq<Report>)
    requires s.attempts == t.attempts && s.pending == taken + rest && t.pending == rest
    ensures Debt(rest, t) + HandDebt(rounds + [Round(taken, [])], t) == Debt(s.pending, s) + HandDebt(rounds, s)
  {
    DebtConcat(taken, rest, s);
    DebtSame(taken, s, t);
    DebtSame(rest, s, t);
    DebtRemainingAll(taken, [], t);
    assert (rounds + [Round(taken, [])])[..|rounds|] == rounds;
    HandDebtMonotone(rounds, s, t);
    HandDebtMonotone(rounds, t, s);
  }

  /** The debt once a group was requeued with one more attempt on its tool. */
  lemma RequeueCloser(s: State, t: State, rounds: seq<Round>, i: nat, next: Round, tool: string, n: nat)
    requires i < |rounds| && tool !in rounds[i].settled && next == rounds[i].(settled := rounds[i].settled + [tool])
    requires Of(rounds[i].batch, tool) != [] && t.pending == s.pending + Of(rounds[i].batch, tool)
    requires n == Attempts(s, tool) + 1 && t.attempts == s.attempts[tool := n]
    ensures Debt(t.pending, t) + HandDebt(rounds[i := next], t) < Debt(s.pending, s) + HandDebt(rounds, s)
  {
    var r := rounds[i];
    RequeueDebt(s, s, t, tool, n, Of(r.batch, tool), r.batch);
    HandDebtUpdate(rounds, i, next, s);
    DebtRemainingStep(r.batch, r.settled, tool, s);
    HandDebtMonotone(rounds[i := next], s, t);
  }

  lemma CountSplit(before: multiset<Report>, after: multiset<Report>, group: seq<Report>)
    requires before == after + multiset(group)
    ensures |before| == |after| + |group|
  {
  }

  lemma SettleCloser(l: Live, i: nat, o: FixOutcome)
    requires LiveInv(l) && Enabled(l, Settle(i, o))
    ensures Closer(Apply(l, Settle(i, o)), l)
  {
    var r, m := l.rounds[i], Apply(l, Settle(i, o));
    var tool, next := NextTool(r), r.(settled := r.settled + [NextTool(r)]);
    var group := Of(r.batch, tool);
    SettleMoves(l.rounds, i, next);
    CountSplit(InHand(l.rounds), InHand(m.rounds), group);
    NextReported(r);
    NextIsNew(r);
    assert m.s.pending == l.s.pending || m.s.pending == l.s.pending + group;
    if o == Unchanged && Attempts(l.s, tool) + 1 < MAX_ATTEMPTS {
      RequeueCloser(l.s, m.s, l.rounds, i, next, tool, Attempts(l.s, tool) + 1);
    }
  }

  lemma EscapeCloser(l: Live, i: nat)
    requires LiveInv(l) && Enabled(l, Escape(i))
    ensures Closer(Apply(l, Escape(i)), l)
  {
    EscapeLoses(l, i);
    var left := Remaining(l.rounds[i].batch, l.rounds[i].settled);
    assert |InHand(Apply(l, Escape(i)).rounds) + left| == |InHand(Apply(l, Escape(i)).rounds)| + |left|;
  }

  /** Whatever the interleaving, every step that processes reports brings the end closer. */
  lemma WorkBringsCloser(l: Live, x: Step)
    requires LiveInv(l) && Works(l, x)
    ensures Closer(Apply(l, x), l) && DebtLeft(Apply(l, x)) >= 0
  {
    match x {
      case Begin(n) => BeginCloser(l, n);
      case Settle(i, o) => SettleCloser(l, i, o);
      case Escape(i) => EscapeCloser(l, i);
    }
    ApplyKeepsLive(l, x);
    DebtLeftNonNegative(Apply(l, x));
  }

  lemma DebtLeftNonNegative(l: Live)
    requires LiveInv(l)
    ensures DebtLeft(l) >= 0
  {
    DebtNonNegative(l.s.pending, l.s);
    HandDebtNonNegative(l.rounds, l.s);
  }

  predicate Busy(l: Live) {
    l.s.pending != [] || exists i :: 0 <= i < |l.rounds| && Underway(l.rounds[i])
  }

  /** The steps are those the scheduler picks from the time now on. */
  ghost predicate Scheduled(l: Live, pick: (nat, Live) -> Step, now: nat, steps: seq<Step>) {
    forall k :: 0 <= k < |steps| ==> steps[k] == pick(now + k, Run(l, steps[..k]))
  }

  lemma ScheduledFirst(l: Live, pick: (nat, Live) -> Step, now: nat, x: Step, rest: seq<Step>)
    requires Enabled(l, x) && x == pick(now, l) && Scheduled(Apply(l, x), pick, now + 1, rest)
    ensures Scheduled(l, pick, now, [x] + rest)
  {
    var steps := [x] + rest;
    forall k | 0 <= k < |steps| ensures steps[k] == pick(now + k, Run(l, steps[..k])) {
      if k == 0 {
        assert steps[..0] == [];
      } else {
        var before := k - 1;
        assert steps[..k] == [x] + rest[..before];
        RunFirst(l, x, rest[..before]);
        assert rest[before] == pick(now + 1 + before, Run(Apply(l, x), rest[..before]));
      }
    }
  }

  /**
   * Once reports stop arriving, any scheduler that works while there is work comes to an end, and then every received
   * report is fixed, escalated, of an unknown tool or lost. What it does may depend on the time and on the state.
   */
  lemma {:induction false} LiveDrains(l: Live, pick: (nat, Live) -> Step, now: nat) returns (steps: seq<Step>)
    requires LiveInv(l) && forall k, m :: Busy(m) ==> Works(m, pick(k, m))
    ensures var end := Run(l, steps);
      && !Busy(end) && Scheduled(l, pick, now, steps)
      && multiset(end.s.received) ==
           multiset(end.s.fixed) + multiset(end.s.escalated) + multiset(end.s.unknown) + end.lost
    decreases Held(l), DebtLeft(l), |l.s.pending|
  {
    DebtLeftNonNegative(l);
    if Busy(l) {
      var x := pick(now, l);
      WorkBringsCloser(l, x);
      ApplyKeepsLive(l, x);
      var rest := LiveDrains(Apply(l, x), pick, now + 1);
      steps := [x] + rest;
      RunFirst(l, x, rest);
      ScheduledFirst(l, pick, now, x, rest);
    } else {
      steps := [];
      NothingInHand(l.rounds);
    }
  }

  lemma {:induction false} RunFirst(l: Live, x: Step, rest: seq<Step>)
    requires Enabled(l, x)
    ensures Run(l, [x] + rest) == Run(Apply(l, x), rest)
  {
    if rest == [] {
      assert [x] + rest == [] + [x];
      RunOneMore(l, [], x);
    } else {
      var n := |rest| - 1;
      RunFirst(l, x, rest[..n]);
      assert [x] + rest == ([x] + rest[..n]) + [rest[n]];
      RunOneMore(l, [x] + rest[..n], rest[n]);
    }
  }

  // ---- A round nobody interrupts ----

  lemma UninterruptedStep(start: State, l: Live, i: nat, o: string -> FixOutcome, k: nat, next: nat)
    requires i < |l.rounds| && Underway(l.rounds[i]) && next == k + 1
    requires k == |l.rounds[i].settled| && l.rounds[i].settled == Tools(l.rounds[i].batch)[..k]
    requires l.s == ProcessGroups(start, l.rounds[i].settled, l.rounds[i].batch, o)
    ensures var m := Apply(l, Settle(i, o(NextTool(l.rounds[i]))));
      && m.rounds[i].settled == Tools(l.rounds[i].batch)[..next]
      && m.s == ProcessGroups(start, m.rounds[i].settled, m.rounds[i].batch, o)
  {
    var tools := Tools(l.rounds[i].batch);
    assert tools[..next] == tools[..k] + [tools[k]];
    GroupsStep(start, tools, k, next, l.rounds[i].batch, o);
  }

  /** The steps of round i in one go: one per tool of its batch not yet dealt with. */
  function RestOfRound(r: Round, i: nat, o: string -> FixOutcome): (steps: seq<Step>)
    decreases |Tools(r.batch)| - |r.settled|
  {
    if !Underway(r) then []
    else [Settle(i, o(NextTool(r)))] + RestOfRound(r.(settled := r.settled + [NextTool(r)]), i, o)
  }

  lemma {:induction false} RestOfRoundResult(start: State, l: Live, i: nat, o: string -> FixOutcome)
    requires i < |l.rounds| && RoundInv(l.rounds[i])
    requires l.s == ProcessGroups(start, l.rounds[i].settled, l.rounds[i].batch, o)
    ensures var r, end := l.rounds[i], Run(l, RestOfRound(l.rounds[i], i, o));
      && end.s == ProcessGroups(start, Tools(r.batch), r.batch, o) && end.lost == l.lost
      && end.rounds == l.rounds[i := Round(r.batch, Tools(r.batch))]
    decreases |Tools(l.rounds[i].batch)| - |l.rounds[i].settled|
  {
    var r := l.rounds[i];
    if Underway(r) {
      var x, k := Settle(i, o(NextTool(r))), |r.settled|;
      var m := Apply(l, x);
      UninterruptedStep(start, l, i, o, k, k + 1);
      RestOfRoundResult(start, m, i, o);
      RunFirst(l, x, RestOfRound(m.rounds[i], i, o));
      assert m.rounds[i := Round(r.batch, Tools(r.batch))] == l.rounds[i := Round(r.batch, Tools(r.batch))];
    } else {
      assert r.settled == Tools(r.batch);
      assert l.rounds[i := r] == l.rounds;
    }
  }

  /** A round begun and carried through without interruption is one call of process_reports. */
  lemma WholeRound(l: Live, n: int, o: string -> FixOutcome)
    requires Enabled(l, Begin(n))
    ensures var m := Apply(l, Begin(n));
      var end := Run(m, RestOfRound(m.rounds[|l.rounds|], |l.rounds|, o));
      && end.s == ProcessReports(l.s, n, o) && end.lost == l.lost
      && |end.rounds| == |l.rounds| + 1 && end.rounds[..|l.rounds|] == l.rounds && !Underway(end.rounds[|l.rounds|])
  {
    var m, i := Apply(l, Begin(n)), |l.rounds|;
    RestOfRoundResult(m.s, m, i, o);
  }
}
