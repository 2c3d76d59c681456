/** Tool experiences and the promotion gate (PostTaskPipeline, youmi/coordinator/post_task.py). */
module Promotion {
  import opened Common
  import opened Counting
  import opened Text

  // ---- Tool results ----

  datatype Value =
    | Null
    | Boolean(b: bool)
    | Number
    | Str(text: string)
    | Arr(items: seq<Value>)
    | Obj(fields: seq<(string, Value)>)

  /** The content of a tool message, NotJson if it does not parse. */
  datatype Content = NotJson | Json(value: Value)

  /** The value of a field; a later field of the same name overwrites an earlier one. */
  function FieldOf(fields: seq<(string, Value)>, name: string): Option<Value> {
    if fields == [] then None
    else if fields[|fields| - 1].0 == name then Some(fields[|fields| - 1].1)
    else FieldOf(fields[..|fields| - 1], name)
  }

  /**
   * What looking for an error finds: none, a text, a list, a value that cannot be sliced, or a match inside a text or
   * list, where the lookup itself fails.
   */
  datatype Kind = Good | ErrorText | ErrorList | ErrorOther | ErrorUnindexable

  function Classify(content: Content): Kind {
    match content
    case NotJson => Good
    case Json(Obj(fields)) =>
      (match FieldOf(fields, "error")
       case None => Good
       case Some(error) => KindOfValue(error))
    case Json(Arr(items)) => if Str("error") in items then ErrorUnindexable else Good
    case Json(Str(text)) => if Contains(text, "error") then ErrorUnindexable else Good
    case Json(_) => Good
  }

  /** The last field of the name decides, and there is a value exactly if there is such a field. */
  lemma {:induction false} FieldMeaning(fields: seq<(string, Value)>, name: string)
    ensures FieldOf(fields, name) == None <==> forall i :: 0 <= i < |fields| ==> fields[i].0 != name
    ensures forall i :: 0 <= i < |fields| && fields[i].0 == name &&
                        (forall j :: i < j < |fields| ==> fields[j].0 != name) ==>
                        FieldOf(fields, name) == Some(fields[i].1)
  {
    if fields != [] {
      var n := |fields| - 1;
      FieldMeaning(fields[..n], name);
      assert forall i :: 0 <= i < n ==> fields[..n][i] == fields[i];
    }
  }

  /** A result reports a failure: an object with a field error, or an array or a text in which "error" is found. */
  ghost predicate MentionsError(content: Content) {
    content.Json? &&
    match content.value
    case Obj(fields) => exists i :: 0 <= i < |fields| && fields[i].0 == "error"
    case Arr(items) => Str("error") in items
    case Str(text) => Contains(text, "error")
    case _ => false
  }

  /** What a failure leads to: texts and lists are kept, the index fails on arrays and texts, slicing on all else. */
  lemma ClassifyMeaning(content: Content)
    ensures Classify(content) == Good <==> !MentionsError(content)
    ensures Classify(content) == ErrorUnindexable <==>
      MentionsError(content) && (content.value.Arr? || content.value.Str?)
    ensures forall i :: content.Json? && content.value.Obj? && 0 <= i < |content.value.fields| &&
                        content.value.fields[i].0 == "error" &&
                        (forall j :: i < j < |content.value.fields| ==> content.value.fields[j].0 != "error") ==>
                        Classify(content) == KindOfValue(content.value.fields[i].1)
  {
    if content.Json? && content.value.Obj? { FieldMeaning(content.value.fields, "error"); }
  }

  function KindOfValue(error: Value): (kind: Kind)
    ensures kind == ErrorText <==> error.Str?
    ensures kind == ErrorList <==> error.Arr?
    ensures kind == ErrorOther <==> !error.Str? && !error.Arr?
  {
    match error
    case Str(_) => ErrorText
    case Arr(_) => ErrorList
    case _ => ErrorOther
  }

  /** A tool result in a conversation; tool is empty when no call matches it. */
  datatype Message = Message(tool: string, content: Content)

  datatype Experience = Experience(tool: string, usage: int, rate: real)

  // ---- What the statistics of a tool amount to ----

  const MAX_TEXTS: nat := 3

  function Calls(messages: seq<Message>, tool: string): nat {
    if messages == [] then 0
    else Calls(messages[..|messages| - 1], tool) + if messages[|messages| - 1].tool == tool then 1 else 0
  }

  predicate Reports(m: Message, tool: string) {
    m.tool == tool && !Classify(m.content).Good?
  }

  function Failed(messages: seq<Message>, tool: string): nat {
    if messages == [] then 0
    else Failed(messages[..|messages| - 1], tool) + if Reports(messages[|messages| - 1], tool) then 1 else 0
  }

  /** A failure whose error value can be stored. */
  predicate Storable(m: Message, tool: string) {
    m.tool == tool && Classify(m.content) in {ErrorText, ErrorList}
  }

  function Storables(messages: seq<Message>, tool: string): nat {
    if messages == [] then 0
    else Storables(messages[..|messages| - 1], tool) + if Storable(messages[|messages| - 1], tool) then 1 else 0
  }

  function Stored(messages: seq<Message>, tool: string): nat {
    if Storables(messages, tool) < MAX_TEXTS then Storables(messages, tool) else MAX_TEXTS
  }

  /**
   * After these messages, m is counted both as a failure and, by the handler of the exception it causes, as a success.
   */
  predicate CountsTwice(before: seq<Message>, m: Message) {
    Classify(m.content).ErrorUnindexable? || (Classify(m.content).ErrorOther? && Stored(before, m.tool) < MAX_TEXTS)
  }

  function Twice(messages: seq<Message>, tool: string): nat {
    if messages == [] then 0
    else
      var init, last := messages[..|messages| - 1], messages[|messages| - 1];
      Twice(init, tool) + if last.tool == tool && CountsTwice(init, last) then 1 else 0
  }

  /** A failure of the tool whose error value is a text or a list. */
  function KeepsValue(tool: string): Message -> bool {
    (m: Message) => m.tool == tool && (Classify(m.content) == ErrorText || Classify(m.content) == ErrorList)
  }

  lemma {:induction false} StorablesCounted(messages: seq<Message>, tool: string)
    ensures Storables(messages, tool) == CountIf(messages, KeepsValue(tool))
  {
    if messages != [] { StorablesCounted(messages[..|messages| - 1], tool); }
  }

  /**
   * Counted twice is a failure found in an array or a text, and one with another error value while fewer than three
   * texts and lists of the tool came before; a list spoils the record under the same condition.
   */
  lemma CountsTwiceMeaning(before: seq<Message>, m: Message)
    ensures CountsTwice(before, m) <==>
      || Classify(m.content) == ErrorUnindexable
      || (Classify(m.content) == ErrorOther && CountIf(before, KeepsValue(m.tool)) < 3)
    ensures Spoiled(before + [m], m.tool) <==>
      || Spoiled(before, m.tool)
      || (Classify(m.content) == ErrorList && CountIf(before, KeepsValue(m.tool)) < 3)
  {
    StorablesCounted(before, m.tool);
    CountsAppend(before, m, m.tool);
  }

  /** A list was stored as an error text, which no experience accepts. */
  predicate Spoiled(messages: seq<Message>, tool: string) {
    if messages == [] then false
    else
      var init, last := messages[..|messages| - 1], messages[|messages| - 1];
      || Spoiled(init, tool)
      || (last.tool == tool && Classify(last.content).ErrorList? && Stored(init, tool) < MAX_TEXTS)
  }

  /** No call of a tool is counted twice exactly if none of its failures is of the kinds that raise on the way. */
  lemma {:induction false} CountedOnceIff(messages: seq<Message>, tool: string)
    ensures Twice(messages, tool) == 0 <==>
      forall k :: 0 <= k < |messages| && messages[k].tool == tool ==> !CountsTwice(messages[..k], messages[k])
  {
    if messages != [] {
      var n := |messages| - 1;
      var init := messages[..n];
      CountedOnceIff(init, tool);
      forall k | 0 <= k < n ensures init[..k] == messages[..k] && init[k] == messages[k] {
      }
    }
  }

  /** Only failures are ever counted twice, so a tool without failures is counted exactly. */
  lemma {:induction false} OnlyFailuresCountTwice(messages: seq<Message>, tool: string)
    ensures Failed(messages, tool) <= Calls(messages, tool) && Twice(messages, tool) <= Failed(messages, tool)
  {
    if messages != [] { OnlyFailuresCountTwice(messages[..|messages| - 1], tool); }
  }

  /** Python's round: to the nearest integer, halves to the even one. */
  function Round(x: real): int {
    var low := x.Floor;
    var rest := x - low as real;
    if rest < 0.5 || (rest == 0.5 && low % 2 == 0) then low else low + 1
  }

  /** Rounding is to the nearest integer, and to the even one of two. */
  lemma RoundNearest(x: real)
    ensures -0.5 <= x - Round(x) as real <= 0.5
    ensures x - Round(x) as real == 0.5 || x - Round(x) as real == -0.5 ==> Round(x) % 2 == 0
  {
  }

  /** The number of failures as the promotion step recovers it from usage and rate. */
  function Failures(e: Experience): int {
    Round(e.usage as real * (1.0 - e.rate))
  }

  function ExperienceOf(tool: string, successes: nat, failures: nat): Experience {
    var total := successes + failures;
    Experience(tool, total, if total > 0 then successes as real / total as real else 0.0)
  }

  /** The failure count survives the detour over the success rate. */
  lemma FailuresRecovered(tool: string, successes: nat, failures: nat)
    ensures Failures(ExperienceOf(tool, successes, failures)) == failures
  {
    var total := successes + failures;
    if total > 0 {
      var rate := successes as real / total as real;
      assert total as real * rate == successes as real;
      assert total as real * (1.0 - rate) == total as real - total as real * rate;
      assert total as real * (1.0 - rate) == failures as real;
    }
  }

  // ---- Collecting experiences ----

  /** The record kept per tool: counters, number of stored error values, and whether one of them is a list. */
  datatype Stats = Stats(success: nat, failure: nat, stored: nat, spoiled: bool)

  const NO_STATS := Stats(0, 0, 0, false)

  function Get(m: map<string, Stats>, k: string): Stats {
    if k in m then m[k] else NO_STATS
  }

  ghost predicate Counted(messages: seq<Message>, tool: string, s: Stats) {
    && s.success + Failed(messages, tool) == Calls(messages, tool) + Twice(messages, tool)
    && s.failure == Failed(messages, tool) && s.stored == Stored(messages, tool)
    && s.spoiled == Spoiled(messages, tool)
  }

  /**
   * One more message: the failure is counted before the error value is looked at, and an exception counts a success.
   */
  method CountMessage(ghost before: seq<Message>, m: Message, s: Stats) returns (next: Stats)
    requires Counted(before, m.tool, s)
    ensures Counted(before + [m], m.tool, next)
  {
    next := s;
    var kind := Classify(m.content);
    if kind.Good? {
      next := next.(success := next.success + 1);
    } else {
      next := next.(failure := next.failure + 1);
      if kind.ErrorUnindexable? || (kind.ErrorOther? && next.stored < MAX_TEXTS) {
        next := next.(success := next.success + 1);
      } else if next.stored < MAX_TEXTS {
        next := next.(stored := next.stored + 1, spoiled := next.spoiled || kind.ErrorList?);
      }
    }
    CountsAppend(before, m, m.tool);
  }

  lemma CountsAppend(before: seq<Message>, m: Message, tool: string)
    ensures var after, mine := before + [m], m.tool == tool;
      && Calls(after, tool) == Calls(before, tool) + (if mine then 1 else 0)
      && Failed(after, tool) == Failed(before, tool) + (if Reports(m, tool) then 1 else 0)
      && Storables(after, tool) == Storables(before, tool) + (if Storable(m, tool) then 1 else 0)
      && Twice(after, tool) == Twice(before, tool) + (if mine && CountsTwice(before, m) then 1 else 0)
      && Spoiled(after, tool) ==
        (Spoiled(before, tool) || (mine && Classify(m.content).ErrorList? && Stored(before, tool) < MAX_TEXTS))
  {
    assert (before + [m])[..|before|] == before;
  }

  /** One statistics record per tool, in order of first appearance. */
  method CountCalls(messages: seq<Message>) returns (tools: seq<string>, stats: map<string, Stats>)
    ensures NoDuplicates(tools)
    ensures forall t :: t in tools <==> t != "" && Calls(messages, t) > 0
    ensures forall t :: t in tools ==> Counted(messages, t, Get(stats, t))
  {
    tools, stats := [], map[];
    var i := 0;
    while i < |messages|
      invariant i <= |messages| && NoDuplicates(tools)
      invariant forall t :: t in tools <==> t != "" && Calls(messages[..i], t) > 0
      invariant forall t :: t != "" ==> Counted(messages[..i], t, Get(stats, t))
    {
      var m, j := messages[i], i + 1;
      assert messages[..j] == messages[..i] + [m];
      forall t ensures Calls(messages[..j], t) == Calls(messages[..i], t) + if m.tool == t then 1 else 0 {
        CountsAppend(messages[..i], m, t);
      }
      ghost var before := stats;
      if m.tool != "" {
        if m.tool !in tools {
          NoDuplicatesAppend(tools, m.tool);
          tools := tools + [m.tool];
        }
        var s := CountMessage(messages[..i], m, Get(stats, m.tool));
        stats := stats[m.tool := s];
      }
      forall t | t != "" && t != m.tool ensures Counted(messages[..j], t, Get(stats, t)) {
        CountsAppend(messages[..i], m, t);
        assert Get(stats, t) == Get(before, t);
      }
      i := j;
    }
    assert messages[..|messages|] == messages;
  }

  /**
   * The experience of a tool: failures recovered exactly, and every call counted once or, as the handler does it,
   * twice.
   */
  ghost predicate Describes(messages: seq<Message>, e: Experience) {
    && e.tool != "" && Calls(messages, e.tool) > 0
    && Failures(e) == Failed(messages, e.tool)
    && e.usage == Calls(messages, e.tool) + Twice(messages, e.tool)
  }

  /** A list stored as an error text fails the validation of its experience, and with it the whole collection. */
  datatype CollectError = InvalidPattern(tool: string)

  ghost predicate AnySpoiled(messages: seq<Message>) {
    exists t :: t != "" && Spoiled(messages, t)
  }

  /** One experience per tool that was called, unless some tool stored a list as an error text. */
  method CollectToolExperiences(messages: seq<Message>) returns (result: Result<seq<Experience>, CollectError>)
    ensures result.Err? <==> AnySpoiled(messages)
    ensures result.Ok? ==> forall i, j :: 0 <= i < j < |result.value| ==> result.value[i].tool != result.value[j].tool
    ensures result.Ok? ==> forall i :: 0 <= i < |result.value| ==> Describes(messages, result.value[i])
    ensures result.Ok? ==> forall t :: t != "" && Calls(messages, t) > 0 ==> HasExperience(result.value, t)
  {
    var tools, stats := CountCalls(messages);
    var experiences: seq<Experience> := [];
    var i := 0;
    while i < |tools|
      invariant i == |experiences| <= |tools|
      invariant forall k :: 0 <= k < i ==> !Spoiled(messages, tools[k])
      invariant forall k :: 0 <= k < i ==> experiences[k].tool == tools[k] && Describes(messages, experiences[k])
    {
      var s := Get(stats, tools[i]);
      assert tools[i] in tools && Counted(messages, tools[i], s);
      if s.spoiled {
        assert Spoiled(messages, tools[i]) && tools[i] != "";
        return Err(InvalidPattern(tools[i]));
      }
      FailuresRecovered(tools[i], s.success, s.failure);
      experiences := experiences + [ExperienceOf(tools[i], s.success, s.failure)];
      i := i + 1;
    }
    forall t | t != "" && Calls(messages, t) > 0 ensures HasExperience(experiences, t) {
      var k :| 0 <= k < |tools| && tools[k] == t;
      assert experiences[k].tool == t;
    }
    forall t | t != "" ensures !Spoiled(messages, t) {
      if Spoiled(messages, t) { SpoiledIsCalled(messages, t); }
    }
    result := Ok(experiences);
  }

  ghost predicate HasExperience(experiences: seq<Experience>, tool: string) {
    exists i :: 0 <= i < |experiences| && experiences[i].tool == tool
  }

  lemma {:induction false} SpoiledIsCalled(messages: seq<Message>, tool: string)
    requires Spoiled(messages, tool)
    ensures Calls(messages, tool) > 0
  {
    var init := messages[..|messages| - 1];
    if Spoiled(init, tool) { SpoiledIsCalled(init, tool); }
  }

  /** The answer {"error": null}: one call that failed is reported as two calls, one of which succeeded. */
  lemma NullErrorCountsTwice(tool: string)
    requires tool != ""
    ensures var m := Message(tool, Json(Obj([("error", Null)])));
      Calls([m], tool) == 1 && Failed([m], tool) == 1 && Twice([m], tool) == 1 && !Spoiled([m], tool)
  {
    var fields := [("error", Null)];
    var m := Message(tool, Json(Obj(fields)));
    assert FieldOf(fields, "error") == Some(Null);
    assert [m][..0] == [];
  }

  // ---- The promotion gate ----

  const PROMOTION_MIN_SUCCESSES: int := 3
  const PROMOTION_MAX_FAILURES: int := 0

  predicate IsPromotionEligible(successes: int, failures: int) {
    successes >= PROMOTION_MIN_SUCCESSES && failures <= PROMOTION_MAX_FAILURES
  }

  /** How promote_to_stable ends: an exception, no new version, or the id of one. */
  datatype PromoteOutcome = Raised | Refused | Promoted(id: string)

  /**
   * What happened to one experience that reported calls; verified and outcome are what the automatic test and the tool
   * store answer if asked.
   */
  datatype Batch = Batch(
    tool: string, usage: int, failures: int,
    verified: bool, outcome: PromoteOutcome, attempted: bool)

  /** The id of the stable version a batch led to. */
  function NewVersion(b: Batch): Option<string> {
    if b.attempted && b.outcome.Promoted? && b.outcome.id != "" then Some(b.outcome.id) else None
  }

  /** A batch after which the count of a tool starts again. */
  predicate Resets(b: Batch) {
    b.failures > 0 || NewVersion(b).Some?
  }

  /** Calls of a tool since its last failing batch or promotion. */
  function Since(history: seq<Batch>, tool: string): int {
    if history == [] then 0
    else
      var last, before := history[|history| - 1], Since(history[..|history| - 1], tool);
      if last.tool != tool then before else if Resets(last) then 0 else before + last.usage
  }

  function UsageOf(history: seq<Batch>, tool: string): int {
    if history == [] then 0
    else
      var last := history[|history| - 1];
      UsageOf(history[..|history| - 1], tool) + if last.tool == tool then last.usage else 0
  }

  /** The stretch of history from i on has no failure and no promotion of the tool, and is the longest such. */
  ghost predicate CleanSince(history: seq<Batch>, tool: string, i: int) {
    && 0 <= i <= |history|
    && (forall k :: i <= k < |history| && history[k].tool == tool ==> !Resets(history[k]))
    && (i > 0 ==> history[i - 1].tool == tool && Resets(history[i - 1]))
  }

  /** Since sums the usage over the clean stretch. */
  lemma {:induction false} SinceMeaning(history: seq<Batch>, tool: string) returns (i: nat)
    ensures CleanSince(history, tool, i) && Since(history, tool) == UsageOf(history[i..], tool)
  {
    if history == [] {
      i := 0;
    } else {
      var init, last := history[..|history| - 1], history[|history| - 1];
      if last.tool == tool && Resets(last) {
        i := |history|;
      } else {
        i := SinceMeaning(init, tool);
        assert history[i..][..|history[i..]| - 1] == init[i..];
      }
    }
  }

  /** A promotion was attempted exactly when the tool had earned it. */
  ghost predicate Gated(history: seq<Batch>, k: int)
    requires 0 <= k < |history|
  {
    var b := history[k];
    && b.usage > 0
    && (b.attempted <==> IsPromotionEligible(Since(history[..k], b.tool) + b.usage, b.failures) && b.verified)
  }

  ghost predicate GateHolds(history: seq<Batch>) {
    forall k :: 0 <= k < |history| ==> Gated(history, k)
  }

  /**
   * Every attempt is preceded by at least three calls without a failure since the last failure or promotion, and
   * follows a passed test.
   */
  lemma AttemptIsEarned(history: seq<Batch>, k: nat) returns (i: nat)
    requires GateHolds(history) && k < |history| && history[k].attempted
    ensures history[k].verified && history[k].failures <= 0
    ensures i <= k && CleanSince(history[..k], history[k].tool, i)
    ensures UsageOf(history[i..k + 1], history[k].tool) >= 3
  {
    assert Gated(history, k);
    var past, tool := history[..k], history[k].tool;
    i := SinceMeaning(past, tool);
    var window := history[i..k + 1];
    assert window[..|window| - 1] == past[i..];
  }

  /**
   * The gate, exactly: an attempt is made if and only if the test passed, the batch is clean and the stretch is long.
   */
  lemma AttemptIffEarned(history: seq<Batch>, k: nat) returns (i: nat)
    requires GateHolds(history) && k < |history|
    ensures i <= k && CleanSince(history[..k], history[k].tool, i)
    ensures history[k].attempted <==>
      history[k].verified && history[k].failures <= 0 && UsageOf(history[i..k + 1], history[k].tool) >= 3
  {
    assert Gated(history, k);
    var past, tool := history[..k], history[k].tool;
    i := SinceMeaning(past, tool);
    var window := history[i..k + 1];
    assert window[..|window| - 1] == past[i..];
  }

  lemma GateAppend(history: seq<Batch>, b: Batch)
    requires GateHolds(history) && b.usage > 0
    requires b.attempted <==> IsPromotionEligible(Since(history, b.tool) + b.usage, b.failures) && b.verified
    ensures GateHolds(history + [b])
  {
    var after := history + [b];
    forall k | 0 <= k < |after| ensures Gated(after, k) {
      if k < |history| {
        assert Gated(history, k);
        assert after[..k] == history[..k];
      } else {
        assert after[..k] == history;
      }
    }
  }

  lemma SinceAppend(history: seq<Batch>, b: Batch, tool: string)
    ensures Since(history + [b], tool) ==
      if b.tool != tool then Since(history, tool) else if Resets(b) then 0 else Since(history, tool) + b.usage
  {
    assert (history + [b])[..|history|] == history;
  }

  /** What one experience and the answers to it determine beforehand. */
  datatype Shape = Shape(tool: string, usage: int, failures: int, verified: bool, outcome: PromoteOutcome)

  function Shapes(batches: seq<Batch>): seq<Shape> {
    seq(|batches|, i requires 0 <= i < |batches| =>
      Shape(batches[i].tool, batches[i].usage, batches[i].failures, batches[i].verified, batches[i].outcome))
  }

  function ShapeOf(e: Experience, verified: bool, outcome: PromoteOutcome): seq<Shape> {
    if e.usage > 0 then [Shape(e.tool, e.usage, Failures(e), verified, outcome)] else []
  }

  /** The experiences that report calls, the i-th with the answers to it. */
  function Reported(experiences: seq<Experience>, verified: nat -> bool, outcome: nat -> PromoteOutcome): seq<Shape> {
    if experiences == [] then []
    else
      var i := |experiences| - 1;
      Reported(experiences[..i], verified, outcome) + ShapeOf(experiences[i], verified(i), outcome(i))
  }

  lemma ShapesConcat(a: seq<Batch>, b: seq<Batch>)
    ensures Shapes(a + b) == Shapes(a) + Shapes(b)
  {
  }

  /** The version id of the last promotion of a tool among some batches. */
  function LastPromotion(batches: seq<Batch>, tool: string): Option<string> {
    if batches == [] then None
    else
      var last := batches[|batches| - 1];
      if last.tool == tool && NewVersion(last).Some? then NewVersion(last)
      else LastPromotion(batches[..|batches| - 1], tool)
  }

  class PromotionTracker {
    var successCounts: map<string, int>
    ghost var history: seq<Batch>

    ghost predicate Valid()
      reads this
    {
      && GateHolds(history)
      && forall t :: Count(t) == Since(history, t)
    }

    function Count(tool: string): int
      reads this
    {
      if tool in successCounts then successCounts[tool] else 0
    }

    constructor ()
      ensures Valid() && history == []
    {
      successCounts, history := map[], [];
    }

    /** One experience; verified and outcome are what the test and the store answer if asked. */
    method Process(e: Experience, verified: bool, outcome: PromoteOutcome)
      returns (promoted: Option<string>, ghost batches: seq<Batch>)
      requires Valid()
      modifies this
      ensures Valid()
      ensures history == old(history) + batches && Shapes(batches) == ShapeOf(e, verified, outcome)
      ensures batches != [] ==> batches[0].tool == e.tool
      ensures promoted == if batches == [] then None else NewVersion(batches[0])
      ensures batches == [] <==> e.usage <= 0
      ensures e.usage <= 0 ==> successCounts == old(successCounts)
      ensures e.usage > 0 ==>
        && (batches[0].attempted <==> Failures(e) <= 0 && verified && old(Count(e.tool)) + e.usage >= 3)
        && promoted == (match outcome
                        case Promoted(id) => if batches[0].attempted && id != "" then Some(id) else None
                        case _ => None)
        && Count(e.tool) == if Failures(e) > 0 || promoted.Some? then 0 else old(Count(e.tool)) + e.usage
      ensures forall t :: t != e.tool ==> Count(t) == old(Count(t))
    {
      promoted, batches := None, [];
      if e.usage <= 0 { return; }
      var failures := Failures(e);
      var total := Count(e.tool) + e.usage;
      if failures > 0 {
        batches := [Batch(e.tool, e.usage, failures, verified, outcome, false)];
        Record(e.tool, batches[0], 0);
      } else if !IsPromotionEligible(total, failures) || !verified {
        batches := [Batch(e.tool, e.usage, failures, verified, outcome, false)];
        Record(e.tool, batches[0], total);
      } else if outcome.Promoted? && outcome.id != "" {
        promoted := Some(outcome.id);
        batches := [Batch(e.tool, e.usage, failures, verified, outcome, true)];
        Record(e.tool, batches[0], 0);
      } else {
        batches := [Batch(e.tool, e.usage, failures, verified, outcome, true)];
        Record(e.tool, batches[0], total);
      }
    }

    method Record(tool: string, ghost b: Batch, count: int)
      requires Valid() && b.tool == tool && b.usage > 0
      requires b.attempted <==> IsPromotionEligible(Since(history, tool) + b.usage, b.failures) && b.verified
      requires count == if Resets(b) then 0 else Since(history, tool) + b.usage
      modifies this
      ensures Valid() && history == old(history) + [b]
      ensures successCounts == old(successCounts)[tool := count]
    {
      GateAppend(history, b);
      ghost var counts := successCounts[tool := count];
      forall t ensures (if t in counts then counts[t] else 0) == Since(history + [b], t) {
        SinceAppend(history, b, t);
        assert Count(t) == Since(history, t);
      }
      successCounts := successCounts[tool := count];
      history := history + [b];
    }

    /** A round of experiences; the i-th is answered by verified(i) and outcome(i). */
    method UpdateToolVersions(experiences: seq<Experience>, verified: nat -> bool, outcome: nat -> PromoteOutcome)
      returns (promoted: map<string, string>, ghost added: seq<Batch>)
      requires Valid()
      modifies this
      ensures Valid()
      ensures history == old(history) + added && Shapes(added) == Reported(experiences, verified, outcome)
      ensures forall t :: Entry(promoted, t) == LastPromotion(added, t)
    {
      promoted, added := map[], [];
      var i := 0;
      while i < |experiences|
        invariant Valid() && i <= |experiences| && history == old(history) + added
        invariant Shapes(added) == Reported(experiences[..i], verified, outcome)
        invariant forall t :: Entry(promoted, t) == LastPromotion(added, t)
      {
        var e, next := experiences[i], i + 1;
        ghost var had := promoted;
        var id, batches := Process(e, verified(i), outcome(i));
        if id.Some? { promoted := promoted[e.tool := id.value]; }
        RoundStep(experiences, verified, outcome, i, next, added, batches);
        PromotedStep(added, batches, had, promoted, e.tool, id);
        Associative(old(history), added, batches);
        added := added + batches;
        i := next;
      }
      assert experiences[..|experiences|] == experiences;
    }
  }

  function Entry(m: map<string, string>, k: string): Option<string> {
    if k in m then Some(m[k]) else None
  }

  lemma RoundStep(experiences: seq<Experience>, verified: nat -> bool, outcome: nat -> PromoteOutcome,
                  i: nat, next: nat, added: seq<Batch>, batches: seq<Batch>)
    requires next == i + 1 <= |experiences|
    requires Shapes(added) == Reported(experiences[..i], verified, outcome)
    requires Shapes(batches) == ShapeOf(experiences[i], verified(i), outcome(i))
    ensures Shapes(added + batches) == Reported(experiences[..next], verified, outcome)
  {
    ShapesConcat(added, batches);
    assert experiences[..next][..i] == experiences[..i];
  }

  lemma PromotedStep(added: seq<Batch>, batches: seq<Batch>, had: map<string, string>, have: map<string, string>,
                     tool: string, id: Option<string>)
    requires have == if id.Some? then had[tool := id.value] else had
    requires |batches| <= 1 && id == if batches == [] then None else NewVersion(batches[0])
    requires batches != [] ==> batches[0].tool == tool
    requires forall t :: Entry(had, t) == LastPromotion(added, t)
    ensures forall t :: Entry(have, t) == LastPromotion(added + batches, t)
  {
    if batches == [] {
      assert added + batches == added;
    } else {
      assert (added + batches)[..|added|] == added;
    }
  }
}
