/** The circuit breaker as a timed state machine under concurrent calls (youmi/core/resilience.py). */
module Breaker {
  import opened Common

  datatype Config = Config(enabled: bool, failureThreshold: nat, recoveryTimeout: real, halfOpenMaxCalls: nat) {
    predicate Legal() {
      failureThreshold >= 1 && recoveryTimeout > 0.0 && halfOpenMaxCalls >= 1
    }
  }

  datatype CircuitState = Closed | Open | HalfOpen

  datatype State = State(
    state: CircuitState, failureCount: nat, successCount: nat, openedAt: real, inFlight: nat,
    totalSuccess: nat, totalFailure: nat, rejected: nat)

  datatype Verdict = Admitted | Rejected(retryAfter: real)

  const INITIAL := State(Closed, 0, 0, 0.0, 0, 0, 0, 0)

  // ---- What each method does to the fields ----

  function Probe(c: Config, b: State): (State, Verdict) {
    if b.inFlight >= c.halfOpenMaxCalls then (b.(rejected := b.rejected + 1), Rejected(0.0))
    else (b.(inFlight := b.inFlight + 1), Admitted)
  }

  function BeforeCall(c: Config, b: State, now: real): (State, Verdict) {
    if !c.enabled || b.state == Closed then (b, Admitted)
    else if b.state == Open then
      if now - b.openedAt >= c.recoveryTimeout then Probe(c, b.(state := HalfOpen, inFlight := 0, successCount := 0))
      else (b.(rejected := b.rejected + 1), Rejected(c.recoveryTimeout - (now - b.openedAt)))
    else Probe(c, b)
  }

  function Release(b: State): State {
    b.(inFlight := if b.inFlight > 0 then b.inFlight - 1 else 0)
  }

  function RecordSuccess(c: Config, b: State): State {
    var b1 := b.(totalSuccess := b.totalSuccess + 1);
    if !c.enabled then b1
    else if b.state == HalfOpen then
      Release(b1).(successCount := b.successCount + 1, state := Closed, failureCount := 0)
    else b1.(failureCount := 0)
  }

  /** A failure trips the breaker in every half-open state and when the count reaches the threshold. */
  predicate Trips(c: Config, b: State) {
    c.enabled && (b.state == HalfOpen || b.failureCount + 1 >= c.failureThreshold)
  }

  function RecordFailure(c: Config, b: State, now: real): State {
    var b1 := b.(totalFailure := b.totalFailure + 1);
    if !c.enabled then b1
    else if b.state == HalfOpen then Release(b1).(state := Open, openedAt := now)
    else if b.failureCount + 1 >= c.failureThreshold then
      b1.(failureCount := b.failureCount + 1, state := Open, openedAt := now)
    else b1.(failureCount := b.failureCount + 1)
  }

  // ---- Concurrent calls ----

  datatype Finish = Succeeded | FailedCall | NestedOpen | Cancelled

  datatype Action = Start(call: nat, now: real) | End(call: nat, how: Finish, now: real)

  /** The breaker together with the calls in flight and the history of the run. */
  datatype System = System(
    breaker: State,
    now: real,
    pending: map<nat, nat>,    // admitted call -> half-open episode it was admitted in, 0 when closed
    episode: nat,              // how often the breaker has become half-open
    episodeAdmitted: nat,      // calls admitted since the current episode began
    episodeNested: nat,        // nested rejections seen since it began
    lost: nat,                 // calls of the episode that were cancelled
    foreign: nat,              // nested rejections of calls from outside the episode
    stolen: int,               // slots they gave back that belonged to calls of the episode
    trips: seq<real>,          // times of all trips
    recorded: seq<bool>)       // all recorded outcomes, true for success

  predicate Enabled(s: System, a: Action) {
    a.now >= s.now && if a.Start? then a.call !in s.pending else a.call in s.pending
  }

  function Admits(c: Config, s: System, now: real): bool {
    BeforeCall(c, s.breaker, now).1 == Admitted
  }

  function ApplyStart(c: Config, s: System, call: nat, now: real): System {
    var (b, v) := BeforeCall(c, s.breaker, now);
    var opens := c.enabled && s.breaker.state == Open && b.state == HalfOpen;
    var e := if opens then s.episode + 1 else s.episode;
    var n := if opens then 0 else s.episodeAdmitted;
    s.(breaker := b, now := now, episode := e,
       pending :=
         if v == Admitted then s.pending[call := if c.enabled && b.state == HalfOpen then e else 0] else s.pending,
       episodeAdmitted := if v == Admitted then n + 1 else n,
       episodeNested := if opens then 0 else s.episodeNested, lost := if opens then 0 else s.lost,
       foreign := if opens then 0 else s.foreign, stolen := if opens then 0 else s.stolen)
  }

  /** A nested rejection releases a slot whether or not its own call holds one. */
  function StolenAfter(s: System, own: bool): int {
    if own then (if s.breaker.inFlight == 0 then s.stolen - 1 else s.stolen)
    else if s.breaker.inFlight > 0 then s.stolen + 1 else s.stolen
  }

  function ApplyEnd(c: Config, s: System, call: nat, how: Finish, now: real): System
  {
    var own := s.breaker.state == HalfOpen && call in s.pending && s.pending[call] == s.episode;
    var s1 := s.(now := now, pending := s.pending - {call});
    match how
    case Succeeded => s1.(breaker := RecordSuccess(c, s.breaker), recorded := s.recorded + [true])
    case FailedCall =>
      s1.(breaker := RecordFailure(c, s.breaker, now), recorded := s.recorded + [false],
          trips := if Trips(c, s.breaker) then s.trips + [now] else s.trips)
    case NestedOpen =>
      s1.(breaker := Release(s.breaker), episodeNested := s.episodeNested + 1,
          foreign := if own then s.foreign else s.foreign + 1, stolen := StolenAfter(s, own))
    case Cancelled => s1.(lost := if own then s.lost + 1 else s.lost)
  }

  function Apply(c: Config, s: System, a: Action): System {
    match a
    case Start(call, now) => ApplyStart(c, s, call, now)
    case End(call, how, now) => ApplyEnd(c, s, call, how, now)
  }

  function Initial(): System {
    System(INITIAL, 0.0, map[], 0, 0, 0, 0, 0, 0, [], [])
  }

  /** How many failures were recorded since the last recorded success. */
  function TrailingFailures(recorded: seq<bool>): nat {
    if recorded == [] || recorded[|recorded| - 1] then 0
    else 1 + TrailingFailures(recorded[..|recorded| - 1])
  }

  function CallsOfEpisode(pending: map<nat, nat>, e: nat): set<nat> {
    set k | k in pending && pending[k] == e
  }

  /** The failure count is exact while closed. */
  ghost predicate CountInv(c: Config, s: System) {
    s.breaker.state == Closed ==>
      s.breaker.failureCount < c.failureThreshold && s.breaker.failureCount == TrailingFailures(s.recorded)
  }

  /** Open remembers the last trip; any other state is entered only when every trip is long past. */
  ghost predicate TripInv(c: Config, s: System) {
    && (forall i :: 0 <= i < |s.trips| ==> s.trips[i] <= s.now)
    && (s.breaker.state == Open ==>
          s.trips != [] && s.breaker.openedAt == s.trips[|s.trips| - 1]
          && forall i :: 0 <= i < |s.trips| ==> s.trips[i] <= s.breaker.openedAt)
    && (s.breaker.state != Open ==> forall i :: 0 <= i < |s.trips| ==> s.now - s.trips[i] >= c.recoveryTimeout)
  }

  ghost predicate SlotInv(c: Config, s: System) {
    && (forall k :: k in s.pending ==> s.pending[k] <= s.episode)
    && (s.breaker.state == HalfOpen ==>
      && s.episode > 0
      && s.breaker.inFlight <= c.halfOpenMaxCalls
      && s.episodeAdmitted <= s.breaker.inFlight + s.episodeNested
      && SlotLaw(s))
  }

  /** Slots in use, but for those given back by outsiders, belong to calls of the episode in flight or were lost. */
  ghost predicate SlotLaw(s: System) {
    && s.breaker.inFlight + s.stolen == |CallsOfEpisode(s.pending, s.episode)| + s.lost
    && 0 <= s.stolen <= s.foreign
  }

  ghost predicate Inv(c: Config, s: System) {
    if c.enabled then CountInv(c, s) && TripInv(c, s) && SlotInv(c, s)
    else s.breaker.state == Closed && s.trips == []
  }

  lemma EpisodeInsert(pending: map<nat, nat>, k: nat, e: nat)
    requires k !in pending
    ensures |CallsOfEpisode(pending[k := e], e)| == |CallsOfEpisode(pending, e)| + 1
  {
    assert CallsOfEpisode(pending[k := e], e) == CallsOfEpisode(pending, e) + {k};
  }

  lemma EpisodeRemove(pending: map<nat, nat>, k: nat, e: nat)
    requires k in pending
    ensures |CallsOfEpisode(pending - {k}, e)| ==
      if pending[k] == e then |CallsOfEpisode(pending, e)| - 1 else |CallsOfEpisode(pending, e)|
  {
    assert CallsOfEpisode(pending - {k}, e) == CallsOfEpisode(pending, e) - {k};
  }

  lemma StartKeepsInv(c: Config, s: System, call: nat, now: real)
    requires c.Legal() && Inv(c, s) && Enabled(s, Start(call, now))
    ensures Inv(c, ApplyStart(c, s, call, now))
  {
    var s' := ApplyStart(c, s, call, now);
    if c.enabled && Admits(c, s, now) {
      EpisodeInsert(s.pending, call, s'.episode);
    }
  }

  lemma EndKeepsCount(c: Config, s: System, call: nat, how: Finish, now: real)
    requires c.Legal() && c.enabled && CountInv(c, s) && Enabled(s, End(call, how, now))
    ensures CountInv(c, ApplyEnd(c, s, call, how, now))
  {
    var r := ApplyEnd(c, s, call, how, now).recorded;
    assert r != s.recorded ==> r[..|r| - 1] == s.recorded;
  }

  lemma EndKeepsTrips(c: Config, s: System, call: nat, how: Finish, now: real)
    requires c.Legal() && c.enabled && TripInv(c, s) && Enabled(s, End(call, how, now))
    ensures TripInv(c, ApplyEnd(c, s, call, how, now))
  {
  }

  lemma EndKeepsSlots(c: Config, s: System, call: nat, how: Finish, now: real)
    requires c.Legal() && c.enabled && SlotInv(c, s) && Enabled(s, End(call, how, now))
    ensures SlotInv(c, ApplyEnd(c, s, call, how, now))
  {
    EpisodeRemove(s.pending, call, s.episode);
  }

  /** Starts and ends, in any order and with any outcomes, keep the invariants. */
  lemma ApplyKeepsInv(c: Config, s: System, a: Action)
    requires c.Legal() && Inv(c, s) && Enabled(s, a)
    ensures Inv(c, Apply(c, s, a))
  {
    match a
    case Start(call, now) => StartKeepsInv(c, s, call, now);
    case End(call, how, now) =>
      if c.enabled {
        EndKeepsCount(c, s, call, how, now);
        EndKeepsTrips(c, s, call, how, now);
        EndKeepsSlots(c, s, call, how, now);
      }
  }

  ghost predicate IsRun(c: Config, actions: seq<Action>) {
    actions == [] || (IsRun(c, actions[..|actions| - 1])
                      && Enabled(After(c, actions[..|actions| - 1]), actions[|actions| - 1]))
  }

  function After(c: Config, actions: seq<Action>): System {
    if actions == [] then Initial() else Apply(c, After(c, actions[..|actions| - 1]), actions[|actions| - 1])
  }

  lemma {:induction false} RunInv(c: Config, actions: seq<Action>)
    requires c.Legal() && IsRun(c, actions)
    ensures Inv(c, After(c, actions))
  {
    if actions != [] {
      RunInv(c, actions[..|actions| - 1]);
      ApplyKeepsInv(c, After(c, actions[..|actions| - 1]), actions[|actions| - 1]);
    }
  }

  // ---- Safety and liveness over every run ----

  /** While closed, the count equals the failures since the last success and is below the threshold. */
  lemma ClosedCountExact(c: Config, actions: seq<Action>)
    requires c.Legal() && c.enabled && IsRun(c, actions)
    ensures var s := After(c, actions);
      s.breaker.state == Closed ==>
        s.breaker.failureCount == TrailingFailures(s.recorded) < c.failureThreshold
  {
    RunInv(c, actions);
  }

  /** No call is admitted within the recovery time of any earlier trip. */
  lemma NoAdmissionAfterTrip(c: Config, actions: seq<Action>, now: real, i: nat)
    requires c.Legal() && IsRun(c, actions) && now >= After(c, actions).now
    requires i < |After(c, actions).trips| && Admits(c, After(c, actions), now)
    ensures now - After(c, actions).trips[i] >= c.recoveryTimeout
  {
    RunInv(c, actions);
  }

  /** Half-open admits at most its maximum, plus one for each nested rejection that gave a slot back. */
  lemma EpisodeBounded(c: Config, actions: seq<Action>)
    requires c.Legal() && c.enabled && IsRun(c, actions) && After(c, actions).breaker.state == HalfOpen
    ensures After(c, actions).episodeAdmitted <= c.halfOpenMaxCalls + After(c, actions).episodeNested
  {
    RunInv(c, actions);
  }

  /**
   * The slot law in every run; without outside rejections the slots in use are exactly the calls in flight and the lost
   * ones.
   */
  lemma SlotsAccounted(c: Config, actions: seq<Action>)
    requires c.Legal() && c.enabled && IsRun(c, actions) && After(c, actions).breaker.state == HalfOpen
    ensures var s := After(c, actions);
      && SlotLaw(s)
      && (s.foreign == 0 ==> s.breaker.inFlight == |CallsOfEpisode(s.pending, s.episode)| + s.lost)
  {
    RunInv(c, actions);
  }

  /** The last trip, if any, is at least the recovery time ago. */
  predicate Recovered(c: Config, s: System, now: real) {
    s.trips == [] || now - s.trips[|s.trips| - 1] >= c.recoveryTimeout
  }

  /**
   * Exactly when a call made the recovery time after the last trip is admitted: the breaker is not half-open, or the
   * calls of the episode in flight and the lost ones leave a slot. Cancellations elsewhere do no harm.
   */
  lemma AdmittedIffSlotLeft(c: Config, actions: seq<Action>, now: real)
    requires c.Legal() && IsRun(c, actions) && now >= After(c, actions).now && Recovered(c, After(c, actions), now)
    ensures var s := After(c, actions);
      var busy := |CallsOfEpisode(s.pending, s.episode)| + s.lost;
      && (Admits(c, s, now) <==> s.breaker.state != HalfOpen || busy < c.halfOpenMaxCalls + s.stolen)
      && (s.foreign == 0 ==> (Admits(c, s, now) <==> s.breaker.state != HalfOpen || busy < c.halfOpenMaxCalls))
  {
    RunInv(c, actions);
  }

  /** Once the calls of the current episode have finished, none of them cancelled, the next call is admitted. */
  lemma FinishedCallsFreeTheBreaker(c: Config, actions: seq<Action>, now: real)
    requires c.Legal() && IsRun(c, actions) && now >= After(c, actions).now && Recovered(c, After(c, actions), now)
    requires var s := After(c, actions);
      s.breaker.state == HalfOpen ==> s.lost == 0 && CallsOfEpisode(s.pending, s.episode) == {}
    ensures Admits(c, After(c, actions), now)
  {
    AdmittedIffSlotLeft(c, actions, now);
    RunInv(c, actions);
  }

  /** Nothing is in flight and every slot is taken. */
  ghost predicate Wedged(c: Config, s: System) {
    c.enabled && s.pending == map[] && s.breaker.state == HalfOpen && s.breaker.inFlight >= c.halfOpenMaxCalls
  }

  lemma {:induction false} StaysWedged(c: Config, n: nat, whole: seq<Action>)
    requires IsRun(c, whole) && n <= |whole| && Wedged(c, After(c, whole[..n]))
    ensures Wedged(c, After(c, whole))
  {
    if n == |whole| {
      assert whole[..n] == whole;
    } else {
      var init := whole[..|whole| - 1];
      assert init[..n] == whole[..n];
      StaysWedged(c, n, init);
    }
  }

  /** In every run that continues the given one, every call is rejected. */
  ghost predicate RejectsForEver(c: Config, actions: seq<Action>) {
    forall whole, now :: IsRun(c, whole) && actions <= whole && now >= After(c, whole).now ==>
      !Admits(c, After(c, whole), now)
  }

  /**
   * Liveness, exactly: with nothing in flight the breaker rejects every call for ever if and only if it is half-open
   * and the cancelled calls of this episode hold every slot.
   */
  lemma RejectsForEverIffSlotsLost(c: Config, actions: seq<Action>)
    requires c.Legal() && c.enabled && IsRun(c, actions) && After(c, actions).pending == map[]
    ensures var s := After(c, actions);
      && (RejectsForEver(c, actions) <==> s.breaker.state == HalfOpen && s.lost >= c.halfOpenMaxCalls + s.stolen)
      && (s.breaker.state == HalfOpen ==> 0 <= s.stolen <= s.foreign)
  {
    var s := After(c, actions);
    RunInv(c, actions);
    assert CallsOfEpisode(s.pending, s.episode) == {};
    if s.breaker.state == HalfOpen && s.lost >= c.halfOpenMaxCalls + s.stolen {
      WedgedRejectsForEver(c, actions);
    } else {
      var now := RecoveryTime(c, s);
      AdmittedIffSlotLeft(c, actions, now);
      AdmittedOnce(c, actions, now);
    }
  }

  lemma WedgedRejectsForEver(c: Config, actions: seq<Action>)
    requires Wedged(c, After(c, actions))
    ensures RejectsForEver(c, actions)
  {
    forall whole, now | IsRun(c, whole) && actions <= whole && now >= After(c, whole).now
      ensures !Admits(c, After(c, whole), now) {
      assert whole[..|actions|] == actions;
      StaysWedged(c, |actions|, whole);
    }
  }

  lemma AdmittedOnce(c: Config, actions: seq<Action>, now: real)
    requires IsRun(c, actions) && now >= After(c, actions).now && Admits(c, After(c, actions), now)
    ensures !RejectsForEver(c, actions)
  {
  }

  /** The earliest time from now on that lies the recovery time after the last trip. */
  function RecoveryTime(c: Config, s: System): (now: real)
    ensures now >= s.now && Recovered(c, s, now)
  {
    if s.trips == [] || s.now >= s.trips[|s.trips| - 1] + c.recoveryTimeout then s.now
    else s.trips[|s.trips| - 1] + c.recoveryTimeout
  }

  ghost predicate StartsOnly(actions: seq<Action>) {
    forall i :: 0 <= i < |actions| ==> actions[i].Start?
  }

  /** A breaker whose half-open slots are all taken rejects every call for ever while nothing is recorded. */
  lemma {:induction false} FullHalfOpenWedges(c: Config, s: System, later: seq<Action>, now: real)
    requires c.enabled && s.breaker.state == HalfOpen && s.breaker.inFlight >= c.halfOpenMaxCalls
    requires StartsOnly(later)
    ensures !Admits(c, ApplyAll(c, s, later), now)
    ensures ApplyAll(c, s, later).breaker.state == HalfOpen
    ensures ApplyAll(c, s, later).breaker.inFlight == s.breaker.inFlight
  {
    if later != [] {
      FullHalfOpenWedges(c, s, later[..|later| - 1], now);
    }
  }

  function ApplyAll(c: Config, s: System, actions: seq<Action>): System {
    if actions == [] then s else Apply(c, ApplyAll(c, s, actions[..|actions| - 1]), actions[|actions| - 1])
  }

  /**
   * Cancellation breaks the liveness guarantee: a cancelled probe keeps its slot. With one failure as threshold and one
   * probe, the breaker rejects every later call although nothing is in flight any more.
   */
  lemma CancelledProbeWedges(later: seq<Action>, now: real)
    requires StartsOnly(later)
    ensures var c := Config(true, 1, 1.0, 1);
      var actions := [Start(0, 0.0), End(0, FailedCall, 0.0), Start(1, 1.0), End(1, Cancelled, 1.0)];
      && c.Legal() && IsRun(c, actions) && After(c, actions).pending == map[]
      && RejectsForEver(c, actions)
      && !Admits(c, ApplyAll(c, After(c, actions), later), now)
  {
    var c := Config(true, 1, 1.0, 1);
    var a0, a1 := Start(0, 0.0), End(0, FailedCall, 0.0);
    var a2, a3 := Start(1, 1.0), End(1, Cancelled, 1.0);
    assert [a0][..0] == [] && [a0, a1][..1] == [a0] && [a0, a1, a2][..2] == [a0, a1] &&
      [a0, a1, a2, a3][..3] == [a0, a1, a2];
    assert IsRun(c, []) && After(c, []) == Initial();
    var s1 := After(c, [a0]);
    assert s1 == Apply(c, Initial(), a0) && IsRun(c, [a0]);
    var s2 := After(c, [a0, a1]);
    assert s2 == Apply(c, s1, a1) && IsRun(c, [a0, a1]);
    var s3 := After(c, [a0, a1, a2]);
    assert s3 == Apply(c, s2, a2) && IsRun(c, [a0, a1, a2]);
    assert s3.breaker.state == HalfOpen && s3.breaker.inFlight == 1;
    var s4 := After(c, [a0, a1, a2, a3]);
    assert s4 == Apply(c, s3, a3) && IsRun(c, [a0, a1, a2, a3]);
    RejectsForEverIffSlotsLost(c, [a0, a1, a2, a3]);
    FullHalfOpenWedges(c, s4, later, now);
  }

  // ---- The object ----

  class CircuitBreaker {
    const config: Config
    var state: CircuitState
    var failureCount: nat
    var successCount: nat
    var openedAt: real
    var inFlight: nat
    var totalSuccess: nat
    var totalFailure: nat
    var rejected: nat

    ghost function View(): State
      reads this
    {
      State(state, failureCount, successCount, openedAt, inFlight, totalSuccess, totalFailure, rejected)
    }

    constructor (config: Config)
      ensures this.config == config && View() == INITIAL
    {
      this.config := config;
      state, failureCount, successCount, openedAt, inFlight := Closed, 0, 0, 0.0, 0;
      totalSuccess, totalFailure, rejected := 0, 0, 0;
    }

    method Before(now: real) returns (verdict: Verdict)
      modifies this
      ensures (View(), verdict) == BeforeCall(config, old(View()), now)
      ensures !config.enabled || old(state) == Closed ==> verdict == Admitted && state == old(state)
      ensures config.enabled && old(state) == Open && now - old(openedAt) < config.recoveryTimeout ==>
        verdict == Rejected(config.recoveryTimeout - (now - old(openedAt))) && state == Open
    {
      if !config.enabled || state == Closed {
        return Admitted;
      }
      if state == Open {
        var elapsed := now - openedAt;
        if elapsed >= config.recoveryTimeout {
          state, inFlight, successCount := HalfOpen, 0, 0;
        } else {
          rejected := rejected + 1;
          return Rejected(config.recoveryTimeout - elapsed);
        }
      }
      if inFlight >= config.halfOpenMaxCalls {
        rejected := rejected + 1;
        return Rejected(0.0);
      }
      inFlight := inFlight + 1;
      return Admitted;
    }

    method ReleaseSlot()
      modifies this
      ensures View() == Release(old(View()))
    {
      inFlight := if inFlight > 0 then inFlight - 1 else 0;
    }

    method OnSuccess()
      modifies this
      ensures View() == RecordSuccess(config, old(View()))
      ensures totalSuccess == old(totalSuccess) + 1 && totalFailure == old(totalFailure)
      ensures config.enabled ==> failureCount == 0 && state == if old(state) == Open then Open else Closed
    {
      totalSuccess := totalSuccess + 1;
      if !config.enabled {
        return;
      }
      if state == HalfOpen {
        ReleaseSlot();
        successCount := successCount + 1;
        state, failureCount := Closed, 0;
        return;
      }
      failureCount := 0;
    }

    method Trip(now: real)
      modifies this
      ensures View() == old(View()).(state := Open, openedAt := now)
    {
      state, openedAt := Open, now;
    }

    method OnFailure(now: real)
      modifies this
      ensures View() == RecordFailure(config, old(View()), now)
      ensures totalFailure == old(totalFailure) + 1 && totalSuccess == old(totalSuccess)
      ensures !config.enabled ==> state == old(state)
      ensures config.enabled && old(state) == Closed ==>
        failureCount == old(failureCount) + 1 &&
        state == if failureCount < config.failureThreshold then Closed else Open
      ensures config.enabled && old(state) != Closed ==> state == Open
      ensures config.enabled && old(state) != Open && state == Open ==> openedAt == now
    {
      totalFailure := totalFailure + 1;
      if !config.enabled {
        return;
      }
      if state == HalfOpen {
        ReleaseSlot();
        Trip(now);
        return;
      }
      failureCount := failureCount + 1;
      if failureCount >= config.failureThreshold {
        Trip(now);
      }
    }
  }

  // ---- The tool executor as a client ----

  datatype Dispatch = Finished(success: bool) | TimedOut | Raised

  datatype ToolAnswer = CircuitRejected | Answered(success: bool) | Propagated

  /**
   * One tool call of a sequential client: admit, dispatch, record; every admitted dispatch is recorded exactly once.
   */
  method ExecuteTool(b: CircuitBreaker, start: real, dispatch: Dispatch, end: real) returns (answer: ToolAnswer)
    requires b.config.Legal() && start <= end
    modifies b
    ensures var (admitted, verdict) := BeforeCall(b.config, old(b.View()), start);
      && (answer == CircuitRejected <==> verdict.Rejected?)
      && b.View() == (if verdict.Rejected? then admitted
                      else if dispatch == Finished(true) then RecordSuccess(b.config, admitted)
                      else RecordFailure(b.config, admitted, end))
      && b.totalSuccess + b.totalFailure ==
        old(b.totalSuccess) + old(b.totalFailure) + (if verdict.Rejected? then 0 else 1)
    ensures answer == Propagated ==> dispatch == Raised
    ensures b.config.enabled && (answer != CircuitRejected || old(b.state) != HalfOpen) ==> b.state != HalfOpen
  {
    var verdict := b.Before(start);
    if verdict.Rejected? {
      return CircuitRejected;
    }
    match dispatch
    case Raised =>
      b.OnFailure(end);
      return Propagated;
    case TimedOut =>
      b.OnFailure(end);
      return Answered(false);
    case Finished(success) =>
      if success {
        b.OnSuccess();
      } else {
        b.OnFailure(end);
      }
      return Answered(success);
  }
}
