/**
 * When exactly the breaker changes state, and what it counts, read off the calls of a run (youmi/core/resilience.py).
 */
module BreakerLaws {
  import opened Common
  import opened Breaker

  // ---- The history of a run ----

  /** The outcomes recorded by the calls of the run, true for a success. */
  function Outcomes(actions: seq<Action>): seq<bool> {
    if actions == [] then []
    else
      var before, a := Outcomes(actions[..|actions| - 1]), actions[|actions| - 1];
      if a.Start? then before
      else match a.how
        case Succeeded => before + [true]
        case FailedCall => before + [false]
        case _ => before
  }

  function Count(outcomes: seq<bool>, kind: bool): nat {
    if outcomes == [] then 0
    else Count(outcomes[..|outcomes| - 1], kind) + if outcomes[|outcomes| - 1] == kind then 1 else 0
  }

  function StateAfter(c: Config, actions: seq<Action>): CircuitState {
    After(c, actions).breaker.state
  }

  predicate Fails(a: Action) {
    a.End? && a.how == FailedCall
  }

  predicate Succeeds(a: Action) {
    a.End? && a.how == Succeeded
  }

  /** Failures since the last success, those of half-open probes not counted. */
  function Strikes(c: Config, actions: seq<Action>): nat {
    if actions == [] then 0
    else
      var init, a := actions[..|actions| - 1], actions[|actions| - 1];
      if Succeeds(a) then 0
      else if Fails(a) && StateAfter(c, init) != HalfOpen then Strikes(c, init) + 1
      else Strikes(c, init)
  }

  /**
   * The times at which the breaker tripped: a failed probe, or a failure that makes the strikes reach the threshold.
   */
  function TripTimes(c: Config, actions: seq<Action>): seq<real> {
    if actions == [] then []
    else
      var init, a := actions[..|actions| - 1], actions[|actions| - 1];
      if c.enabled && Fails(a) && (StateAfter(c, init) == HalfOpen || Strikes(c, init) + 1 >= c.failureThreshold) then
        TripTimes(c, init) + [a.now]
      else TripTimes(c, init)
  }

  /** The recovery time has passed since the last trip. */
  predicate Rested(c: Config, trips: seq<real>, now: real) {
    trips != [] && now - LastTrip(trips) >= c.recoveryTimeout
  }

  function LastTrip(trips: seq<real>): real {
    if trips == [] then 0.0 else trips[|trips| - 1]
  }

  /** The start is refused: before the recovery time is over, or because every probe is taken. */
  predicate Refused(c: Config, actions: seq<Action>, now: real) {
    c.enabled && match StateAfter(c, actions)
      case Closed => false
      case Open => !Rested(c, TripTimes(c, actions), now)
      case HalfOpen => After(c, actions).breaker.inFlight >= c.halfOpenMaxCalls
  }

  /** The start turns an open breaker half-open: a new episode of probes begins. */
  predicate Reopens(c: Config, actions: seq<Action>, a: Action) {
    c.enabled && a.Start? && StateAfter(c, actions) == Open && Rested(c, TripTimes(c, actions), a.now)
  }

  /** How many probes have succeeded since the last episode began. */
  function ProbeSuccesses(c: Config, actions: seq<Action>): nat {
    if actions == [] then 0
    else
      var init, a := actions[..|actions| - 1], actions[|actions| - 1];
      if Reopens(c, init, a) then 0
      else ProbeSuccesses(c, init) + if c.enabled && Succeeds(a) && StateAfter(c, init) == HalfOpen then 1 else 0
  }

  function Refusals(c: Config, actions: seq<Action>): nat {
    if actions == [] then 0
    else
      var init, a := actions[..|actions| - 1], actions[|actions| - 1];
      Refusals(c, init) + if a.Start? && Refused(c, init, a.now) then 1 else 0
  }

  // ---- The fields of the breaker are what the history says ----

  ghost predicate OutcomesFit(s: System, outcomes: seq<bool>) {
    && s.recorded == outcomes
    && s.breaker.totalSuccess == Count(outcomes, true) && s.breaker.totalFailure == Count(outcomes, false)
  }

  ghost predicate StrikesFit(c: Config, s: System, strikes: nat, trips: seq<real>) {
    c.enabled ==> s.breaker.failureCount == strikes && s.trips == trips
  }

  ghost predicate Recorded(c: Config, actions: seq<Action>) {
    OutcomesFit(After(c, actions), Outcomes(actions)) &&
    StrikesFit(c, After(c, actions), Strikes(c, actions), TripTimes(c, actions))
  }

  lemma CountMore(outcomes: seq<bool>, x: bool, kind: bool)
    ensures Count(outcomes + [x], kind) == Count(outcomes, kind) + if x == kind then 1 else 0
  {
    assert (outcomes + [x])[..|outcomes|] == outcomes;
  }

  lemma OutcomesStep(c: Config, s: System, a: Action, outcomes: seq<bool>)
    requires OutcomesFit(s, outcomes)
    ensures OutcomesFit(Apply(c, s, a), if Succeeds(a) then outcomes + [true]
                                        else if Fails(a) then outcomes + [false] else outcomes)
  {
    match a
    case Start(_, _) =>
    case End(call, how, now) => EndOutcomes(c, s, call, how, now, outcomes);
  }

  lemma EndOutcomes(c: Config, s: System, call: nat, how: Finish, now: real, outcomes: seq<bool>)
    requires OutcomesFit(s, outcomes)
    ensures OutcomesFit(ApplyEnd(c, s, call, how, now),
      match how case Succeeded => outcomes + [true] case FailedCall => outcomes + [false] case _ => outcomes)
  {
    var x := how == Succeeded;
    CountMore(outcomes, x, true);
    CountMore(outcomes, x, false);
  }

  lemma StrikesStep(c: Config, s: System, a: Action, strikes: nat, trips: seq<real>)
    requires StrikesFit(c, s, strikes, trips)
    ensures StrikesFit(c, Apply(c, s, a),
      if Succeeds(a) then 0 else if Fails(a) && s.breaker.state != HalfOpen then strikes + 1 else strikes,
      if c.enabled && Fails(a) && (s.breaker.state == HalfOpen || strikes + 1 >= c.failureThreshold)
      then trips + [a.now] else trips)
  {
  }

  /** Over every run the counters, the failure count and the trips are those of its calls. */
  lemma {:induction false} RunRecords(c: Config, actions: seq<Action>)
    ensures Recorded(c, actions)
  {
    if actions != [] {
      var init, a := actions[..|actions| - 1], actions[|actions| - 1];
      RunRecords(c, init);
      OutcomesStep(c, After(c, init), a, Outcomes(init));
      StrikesStep(c, After(c, init), a, Strikes(c, init), TripTimes(c, init));
    }
  }

  /** An open breaker opened at its last trip. */
  lemma OpenedAtLastTrip(c: Config, actions: seq<Action>)
    requires c.Legal() && c.enabled && IsRun(c, actions) && StateAfter(c, actions) == Open
    ensures TripTimes(c, actions) != [] && After(c, actions).breaker.openedAt == LastTrip(TripTimes(c, actions))
  {
    RunInv(c, actions);
    RunRecords(c, actions);
  }

  /** Exactly the starts of refused calls are rejected, with the time left until recovery. */
  lemma RefusedExactly(c: Config, actions: seq<Action>, now: real)
    requires c.Legal() && IsRun(c, actions)
    ensures Admits(c, After(c, actions), now) <==> !Refused(c, actions, now)
    ensures Refused(c, actions, now) ==> BeforeCall(c, After(c, actions).breaker, now).1 == Rejected(
      if StateAfter(c, actions) == Open
      then c.recoveryTimeout - (now - LastTrip(TripTimes(c, actions))) else 0.0)
  {
    if c.enabled && StateAfter(c, actions) == Open { OpenedAtLastTrip(c, actions); }
  }

  /** Every refusal is counted, and so is every successful probe of the episode. */
  lemma {:induction false} RefusalsCounted(c: Config, actions: seq<Action>)
    requires c.Legal() && IsRun(c, actions)
    ensures After(c, actions).breaker.rejected == Refusals(c, actions)
    ensures After(c, actions).breaker.successCount == ProbeSuccesses(c, actions)
  {
    if actions != [] {
      var init, a := actions[..|actions| - 1], actions[|actions| - 1];
      RefusalsCounted(c, init);
      if a.Start? {
        RefusedExactly(c, init, a.now);
        ReopensExactly(c, init, a);
      }
    }
  }

  lemma ReopensExactly(c: Config, actions: seq<Action>, a: Action)
    requires c.Legal() && IsRun(c, actions) && a.Start?
    ensures Reopens(c, actions, a) <==>
      c.enabled && StateAfter(c, actions) == Open && a.now - After(c, actions).breaker.openedAt >= c.recoveryTimeout
  {
    if c.enabled && StateAfter(c, actions) == Open { OpenedAtLastTrip(c, actions); }
  }

  // ---- Episodes ----

  /** How often the breaker has become half-open. */
  function Episode(c: Config, actions: seq<Action>): nat {
    if actions == [] then 0
    else
      var init := actions[..|actions| - 1];
      Episode(c, init) + if Reopens(c, init, actions[|actions| - 1]) then 1 else 0
  }

  /** The episode in which the call still in flight was admitted; 0 for a call admitted while closed. */
  function AdmittedIn(c: Config, actions: seq<Action>, call: nat): Option<nat> {
    if actions == [] then None
    else
      var init, a := actions[..|actions| - 1], actions[|actions| - 1];
      if a.call != call then AdmittedIn(c, init, call)
      else if a.End? then None
      else if Refused(c, init, a.now) then AdmittedIn(c, init, call)
      else Some(if StateAfter(c, init) == Closed then 0 else Episode(c, actions))
  }

  /** The call is a probe of the current episode, which is still going on. */
  predicate Probes(c: Config, actions: seq<Action>, call: nat) {
    StateAfter(c, actions) == HalfOpen && AdmittedIn(c, actions, call) == Some(Episode(c, actions))
  }

  /** Since the current episode began: cancelled probes, nested rejections, and those of them that were no probes. */
  datatype Tally = Tally(lost: nat, nested: nat, outside: nat)

  function TallyOf(c: Config, actions: seq<Action>): Tally {
    if actions == [] then Tally(0, 0, 0)
    else
      var init, a := actions[..|actions| - 1], actions[|actions| - 1];
      var t := TallyOf(c, init);
      if Reopens(c, init, a) then Tally(0, 0, 0)
      else if a.Start? then t
      else
        match a.how
        case Cancelled => if Probes(c, init, a.call) then t.(lost := t.lost + 1) else t
        case NestedOpen =>
          Tally(t.lost, t.nested + 1, if Probes(c, init, a.call) then t.outside else t.outside + 1)
        case _ => t
  }

  ghost predicate EpisodesFit(c: Config, actions: seq<Action>) {
    var s := After(c, actions);
    && s.episode == Episode(c, actions)
    && (forall k :: AdmittedIn(c, actions, k) == if k in s.pending then Some(s.pending[k]) else None)
    && TallyOf(c, actions) == Tally(s.lost, s.episodeNested, s.foreign)
  }

  lemma StartEpisodes(c: Config, init: seq<Action>, a: Action, actions: seq<Action>)
    requires c.Legal() && IsRun(c, actions) && actions != [] && init == actions[..|actions| - 1]
    requires a == actions[|actions| - 1] && a.Start? && EpisodesFit(c, init)
    ensures EpisodesFit(c, actions)
  {
    RefusedExactly(c, init, a.now);
    ReopensExactly(c, init, a);
    RunInv(c, init);
  }

  lemma EndEpisodes(c: Config, init: seq<Action>, a: Action, actions: seq<Action>)
    requires actions != [] && init == actions[..|actions| - 1]
    requires a == actions[|actions| - 1] && a.End? && EpisodesFit(c, init)
    ensures EpisodesFit(c, actions)
  {
  }

  /** Over every run the episodes, the calls in flight and the tallies of the slot law are those of its calls. */
  lemma {:induction false} RunEpisodes(c: Config, actions: seq<Action>)
    requires c.Legal() && IsRun(c, actions)
    ensures EpisodesFit(c, actions)
  {
    if actions != [] {
      var init, a := actions[..|actions| - 1], actions[|actions| - 1];
      RunEpisodes(c, init);
      if a.Start? { StartEpisodes(c, init, a, actions); } else { EndEpisodes(c, init, a, actions); }
    }
  }

  // ---- Every change of state ----

  /** The state that follows a state, given the outcomes and the trips so far. */
  function NextState(c: Config, state: CircuitState, outcomes: seq<bool>, trips: seq<real>, a: Action): CircuitState {
    match state
    case Closed => if Fails(a) && 1 + TrailingFailures(outcomes) >= c.failureThreshold then Open else Closed
    case HalfOpen => if Fails(a) then Open else if Succeeds(a) then Closed else HalfOpen
    case Open => if a.Start? && Rested(c, trips, a.now) then HalfOpen else Open
  }

  /**
   * From closed only a failure that completes failureThreshold failures in a row opens the breaker; half-open ends with
   * the first recorded outcome; only a start the recovery time after the last trip ends open. Disabled, it stays
   * closed.
   */
  lemma Transitions(c: Config, actions: seq<Action>, a: Action)
    requires c.Legal() && IsRun(c, actions) && Enabled(After(c, actions), a)
    ensures StateAfter(c, actions + [a]) ==
      if c.enabled then NextState(c, StateAfter(c, actions), Outcomes(actions), TripTimes(c, actions), a) else Closed
  {
    RunInv(c, actions);
    RunRecords(c, actions);
    AfterMore(c, actions, a);
    if c.enabled { Moves(c, After(c, actions), a); }
  }

  lemma AfterMore(c: Config, actions: seq<Action>, a: Action)
    ensures After(c, actions + [a]) == Apply(c, After(c, actions), a)
  {
    assert (actions + [a])[..|actions|] == actions;
  }

  lemma Moves(c: Config, s: System, a: Action)
    requires c.Legal() && c.enabled && Inv(c, s)
    ensures Apply(c, s, a).breaker.state == NextState(c, s.breaker.state, s.recorded, s.trips, a)
  {
  }

  lemma {:induction false} TrailingAllFail(outcomes: seq<bool>, i: nat)
    requires |outcomes| - TrailingFailures(outcomes) <= i < |outcomes|
    ensures !outcomes[i]
  {
    if i < |outcomes| - 1 { TrailingAllFail(outcomes[..|outcomes| - 1], i); }
  }

  lemma {:induction false} TrailingBounded(outcomes: seq<bool>)
    ensures TrailingFailures(outcomes) <= |outcomes|
  {
    if outcomes != [] { TrailingBounded(outcomes[..|outcomes| - 1]); }
  }

  /** A trip from closed ends failureThreshold recorded failures in a row, and no fewer failures trip. */
  lemma TripEndsFailures(c: Config, actions: seq<Action>, a: Action)
    requires c.Legal() && c.enabled && IsRun(c, actions) && Enabled(After(c, actions), a)
    requires StateAfter(c, actions) == Closed && StateAfter(c, actions + [a]) == Open
    ensures var outcomes := Outcomes(actions + [a]);
      && c.failureThreshold <= |outcomes|
      && (forall i :: |outcomes| - c.failureThreshold <= i < |outcomes| ==> !outcomes[i])
      && TrailingFailures(outcomes) == c.failureThreshold
  {
    Transitions(c, actions, a);
    ClosedCountExact(c, actions);
    RunRecords(c, actions);
    assert (actions + [a])[..|actions|] == actions;
    var before, outcomes := Outcomes(actions), Outcomes(actions + [a]);
    assert outcomes == before + [false] && outcomes[..|outcomes| - 1] == before;
    TrailingBounded(outcomes);
    forall i | |outcomes| - c.failureThreshold <= i < |outcomes| ensures !outcomes[i] {
      TrailingAllFail(outcomes, i);
    }
  }
}
