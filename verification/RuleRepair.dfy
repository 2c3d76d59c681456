/**
 * Rule-based repair of tool descriptions (FixStrategies._generate_fix_with_rules, youmi/coordinator/fix_strategies.py).
 */
module RuleRepair {
  import opened Common
  import opened Text

  // ---- Appending the parts that are new ----

  predicate IsFresh(description: string, part: string) {
    Strip(part) != "" && !Contains(description, Strip(part))
  }

  function Fresh(description: string, parts: seq<string>): seq<string> {
    if parts == [] then []
    else
      var last := parts[|parts| - 1];
      Fresh(description, parts[..|parts| - 1]) + if IsFresh(description, last) then [last] else []
  }

  function Repaired(description: string, parts: seq<string>): string {
    description + Join("\n", Fresh(description, parts))
  }

  lemma {:induction false} FreshExact(description: string, parts: seq<string>)
    ensures forall p :: p in Fresh(description, parts) <==> p in parts && IsFresh(description, p)
  {
    if parts != [] {
      var init, last := parts[..|parts| - 1], parts[|parts| - 1];
      FreshExact(description, init);
      assert parts == init + [last];
    }
  }

  /** After a repair the description keeps its old text and mentions every nonblank part. */
  lemma RepairCovers(description: string, parts: seq<string>, part: string)
    requires part in parts && Strip(part) != ""
    ensures description <= Repaired(description, parts)
    ensures Contains(Repaired(description, parts), Strip(part))
  {
    var added := Fresh(description, parts);
    var tail := Join("\n", added);
    FreshExact(description, parts);
    if part in added {
      var k :| 0 <= k < |added| && added[k] == part;
      JoinContains("\n", added, k);
      StripInside(part);
      ContainsTransitive(tail, part, Strip(part));
      ContainsAround(description, tail, "", Strip(part));
      assert description + tail + "" == description + tail;
    } else {
      ContainsAround("", description, tail, Strip(part));
      assert "" + description + tail == description + tail;
    }
  }

  /** A repair changes nothing exactly when nothing was added. */
  lemma UnchangedIffNothingFresh(description: string, parts: seq<string>)
    ensures Repaired(description, parts) == description <==> forall p :: p in parts ==> !IsFresh(description, p)
  {
    var added := Fresh(description, parts);
    FreshExact(description, parts);
    if added == [] {
      assert Repaired(description, parts) == description;
    } else {
      assert added[0] in parts && IsFresh(description, added[0]);
      JoinContains("\n", added, 0);
      assert |Join("\n", added)| >= |added[0]|;
      StripInside(added[0]);
      assert |Repaired(description, parts)| > |description|;
    }
  }

  /** Repairing twice with the same parts is repairing once. */
  lemma RepairIdempotent(description: string, parts: seq<string>)
    ensures Repaired(Repaired(description, parts), parts) == Repaired(description, parts)
  {
    var once := Repaired(description, parts);
    forall p | p in parts ensures !IsFresh(once, p) {
      if Strip(p) != "" { RepairCovers(description, parts, p); }
    }
    UnchangedIffNothingFresh(once, parts);
  }

  // ---- Which parts a batch of reports calls for ----

  datatype IssueType =
    | UnclearDescription | ParameterBoundary | MissingFeature | UnexpectedBehavior | ErrorHandling | OtherIssue

  /** arguments is the JSON text of the call arguments. */
  datatype Report = Report(error: string, suggestion: string, arguments: string)

  datatype Knowledge = Knowledge(knownIssues: seq<string>, otherEntries: bool)

  function Errors(reports: seq<Report>): seq<string> {
    seq(|reports|, i requires 0 <= i < |reports| => reports[i].error)
  }

  function Suggestions(reports: seq<Report>): seq<string> {
    if reports == [] then []
    else
      var last := reports[|reports| - 1];
      Suggestions(reports[..|reports| - 1]) + (if last.suggestion != "" then [last.suggestion] else [])
  }

  /**
   * The errors of the first reports as one phrase; listing is the iteration order of a Python set built from a list.
   */
  function Phrase(reports: seq<Report>, listing: seq<string> -> seq<string>): string {
    Join("; ", listing(Prefix(Errors(reports), 3)))
  }

  function BoundaryLines(reports: seq<Report>): seq<string> {
    if reports == [] then []
    else
      var r := reports[|reports| - 1];
      BoundaryLines(reports[..|reports| - 1]) + ["  - 当参数为 " + r.arguments + " 时可能出现: " + r.error]
  }

  const UNCLEAR_HEADING: string := "\n\n[Guardian 修正] 已知问题：该工具描述可能导致误解。常见错误: "
  const BOUNDARY_HEADING: string := "\n\n[Guardian 修正] 参数边界注意事项："
  const MISSING_HEADING: string := "\n\n[Guardian 修正] 当前不支持的场景: "
  const UNEXPECTED_HEADING: string := "\n\n[Guardian 修正] 已知异常行为: "
  const ERROR_HEADING: string := "\n\n[Guardian 修正] 错误处理注意事项: "
  const KNOWLEDGE_HEADING: string := "\n[全局记忆] 历史已知未解决问题（本次一并修正）:\n"

  function IssueParts(kind: IssueType, reports: seq<Report>, listing: seq<string> -> seq<string>): seq<string> {
    match kind
    case UnclearDescription =>
      [UNCLEAR_HEADING + Phrase(reports, listing)] +
      (if Suggestions(reports) != [] then ["使用建议: " + Join("; ", Prefix(Suggestions(reports), 2))] else [])
    case ParameterBoundary => [BOUNDARY_HEADING] + BoundaryLines(Prefix(reports, 3))
    case MissingFeature => [MISSING_HEADING + Phrase(reports, listing)]
    case UnexpectedBehavior => [UNEXPECTED_HEADING + Phrase(reports, listing)]
    case ErrorHandling => [ERROR_HEADING + Phrase(reports, listing)]
    case OtherIssue => []
  }

  function ExtraIssues(issues: seq<string>, existing: string): seq<string> {
    if issues == [] then []
    else
      var last := issues[|issues| - 1];
      ExtraIssues(issues[..|issues| - 1], existing) + if Contains(existing, Prefix(last, 60)) then [] else [last]
  }

  function IssueLines(issues: seq<string>): seq<string> {
    if issues == [] then []
    else IssueLines(issues[..|issues| - 1]) + ["  - " + Prefix(issues[|issues| - 1], 120)]
  }

  function KnowledgeParts(parts: seq<string>, knowledge: Option<Knowledge>): seq<string> {
    if knowledge.None? then []
    else
      var extra := ExtraIssues(Prefix(knowledge.value.knownIssues, 3), Join("\n", parts));
      if extra == [] then [] else [KNOWLEDGE_HEADING + Join("\n", IssueLines(extra))]
  }

  function SuffixParts(kind: IssueType, reports: seq<Report>, knowledge: Option<Knowledge>,
                       listing: seq<string> -> seq<string>): seq<string> {
    var parts := IssueParts(kind, reports, listing);
    parts + KnowledgeParts(parts, knowledge)
  }

  // ---- What the parts say ----

  /** Some part contains the text. */
  ghost predicate Mentions(parts: seq<string>, text: string) {
    exists k :: 0 <= k < |parts| && Contains(parts[k], text)
  }

  /** listing enumerates the set of a list: the same elements, each once. */
  ghost predicate ListsSets(listing: seq<string> -> seq<string>) {
    forall s :: NoDuplicates(listing(s)) && forall x :: x in listing(s) <==> x in s
  }

  lemma HeadedQuote(heading: string, quoted: seq<string>, text: string)
    requires text in quoted
    ensures Contains(heading + Join("; ", quoted), text)
  {
    var k :| 0 <= k < |quoted| && quoted[k] == text;
    JoinContains("; ", quoted, k);
    ContainsAround(heading, Join("; ", quoted), "", text);
    assert heading + Join("; ", quoted) + "" == heading + Join("; ", quoted);
  }

  lemma {:induction false} BoundaryQuotes(reports: seq<Report>, i: nat)
    requires i < |reports|
    ensures |BoundaryLines(reports)| == |reports|
    ensures Contains(BoundaryLines(reports)[i], reports[i].error) &&
      Contains(BoundaryLines(reports)[i], reports[i].arguments)
  {
    var n := |reports| - 1;
    var lines := BoundaryLines(reports[..n]);
    if n > 0 { BoundaryQuotes(reports[..n], if i < n then i else 0); }
    if i == n {
      var r := reports[n];
      var before, after := "  - 当参数为 ", " 时可能出现: ";
      assert BoundaryLines(reports)[n] == before + r.arguments + (after + r.error) ==
        (before + r.arguments + after) + r.error + "";
      ContainsItself(r.error);
      ContainsItself(r.arguments);
      ContainsAround(before + r.arguments + after, r.error, "", r.error);
      ContainsAround(before, r.arguments, after + r.error, r.arguments);
    }
  }

  /**
   * Whatever the issue type, but for the one that gets no repair, the error of each of the first three reports is
   * quoted.
   */
  lemma ErrorsQuoted(kind: IssueType, reports: seq<Report>, listing: seq<string> -> seq<string>, i: nat)
    requires i < |reports| && i < 3 && ListsSets(listing)
    ensures kind.OtherIssue? <==> IssueParts(kind, reports, listing) == []
    ensures !kind.OtherIssue? ==> Mentions(IssueParts(kind, reports, listing), reports[i].error)
    ensures kind.ParameterBoundary? ==> Mentions(IssueParts(kind, reports, listing), reports[i].arguments)
  {
    var parts, first, error := IssueParts(kind, reports, listing), Prefix(Errors(reports), 3), reports[i].error;
    if kind.ParameterBoundary? {
      BoundaryQuotes(Prefix(reports, 3), i);
      assert parts[i + 1] == BoundaryLines(Prefix(reports, 3))[i];
    } else if !kind.OtherIssue? {
      assert first[i] == error && error in listing(first);
      HeadedQuote(Heading(kind), listing(first), error);
      assert parts[0] == Heading(kind) + Phrase(reports, listing);
    }
  }

  function Heading(kind: IssueType): string {
    match kind
    case UnclearDescription => UNCLEAR_HEADING
    case ParameterBoundary => BOUNDARY_HEADING
    case MissingFeature => MISSING_HEADING
    case UnexpectedBehavior => UNEXPECTED_HEADING
    case ErrorHandling => ERROR_HEADING
    case OtherIssue => ""
  }

  /** Nothing but the errors of the first three reports is quoted under a heading, each once. */
  lemma OnlyFirstErrorsQuoted(kind: IssueType, reports: seq<Report>, listing: seq<string> -> seq<string>)
    requires ListsSets(listing) && !kind.ParameterBoundary? && !kind.OtherIssue?
    ensures exists quoted :: QuotedErrors(kind, reports, listing, quoted)
  {
    assert QuotedErrors(kind, reports, listing, listing(Prefix(Errors(reports), 3)));
  }

  ghost predicate QuotedErrors(kind: IssueType, reports: seq<Report>, listing: seq<string> -> seq<string>,
                               quoted: seq<string>) {
    && IssueParts(kind, reports, listing) != []
    && IssueParts(kind, reports, listing)[0] == Heading(kind) + Join("; ", quoted)
    && NoDuplicates(quoted)
    && forall x :: x in quoted ==> exists i :: 0 <= i < 3 && i < |reports| && reports[i].error == x
  }

  lemma {:induction false} SuggestionsGiven(reports: seq<Report>)
    ensures forall x :: x in Suggestions(reports) <==> x != "" && exists r :: r in reports && r.suggestion == x
  {
    if reports != [] {
      var init, last := reports[..|reports| - 1], reports[|reports| - 1];
      SuggestionsGiven(init);
      assert reports == init + [last];
      forall x ensures x in Suggestions(reports) <==> x != "" && exists r :: r in reports && r.suggestion == x {
        if r :| r in init && r.suggestion == x { assert r in reports; }
        assert last in reports;
      }
    }
  }

  /** For unclear descriptions the first two suggestions given are quoted, if any was. */
  lemma SuggestionsQuoted(reports: seq<Report>, listing: seq<string> -> seq<string>, i: nat)
    requires i < |Suggestions(reports)| && i < 2
    ensures Mentions(IssueParts(UnclearDescription, reports, listing), Suggestions(reports)[i])
    ensures exists r :: r in reports && r.suggestion == Suggestions(reports)[i]
  {
    var parts, quoted := IssueParts(UnclearDescription, reports, listing), Prefix(Suggestions(reports), 2);
    assert quoted[i] == Suggestions(reports)[i];
    HeadedQuote("使用建议: ", quoted, quoted[i]);
    assert parts[1] == "使用建议: " + Join("; ", quoted);
    SuggestionsGiven(reports);
  }

  lemma {:induction false} ExtraExact(issues: seq<string>, existing: string)
    ensures forall x :: x in ExtraIssues(issues, existing) <==> x in issues && !Contains(existing, Prefix(x, 60))
  {
    if issues != [] {
      var init, last := issues[..|issues| - 1], issues[|issues| - 1];
      ExtraExact(init, existing);
      assert issues == init + [last];
    }
  }

  lemma LinesQuote(issues: seq<string>, x: string)
    requires x in issues
    ensures Contains(Join("\n", IssueLines(issues)), Prefix(x, 60))
  {
    var k :| 0 <= k < |issues| && issues[k] == x;
    LineOf(issues, k);
    var lines := IssueLines(issues);
    JoinContains("\n", lines, k);
    ContainsTransitive(Join("\n", lines), lines[k], Prefix(x, 60));
  }

  lemma {:induction false} LineOf(issues: seq<string>, k: nat)
    requires k < |issues|
    ensures |IssueLines(issues)| == |issues| && Contains(IssueLines(issues)[k], Prefix(issues[k], 60))
  {
    var n := |issues| - 1;
    if n > 0 { LineOf(issues[..n], if k < n then k else 0); }
    if k == n {
      var text, cut := Prefix(issues[n], 120), Prefix(issues[n], 60);
      assert text == [] + cut + text[|cut|..];
      ContainsItself(cut);
      ContainsAround([], cut, text[|cut|..], cut);
      ContainsAround("  - ", text, "", cut);
      assert "  - " + text + "" == "  - " + text;
    }
  }

  lemma JoinGrows(parts: seq<string>, part: string, text: string)
    requires Contains(Join("\n", parts), text) || Contains(part, text)
    ensures Contains(Join("\n", parts + [part]), text)
  {
    var all := parts + [part];
    assert all[..|all| - 1] == parts;
    JoinContains("\n", all, |parts|);
    if Contains(part, text) {
      ContainsTransitive(Join("\n", all), part, text);
    } else if parts == [] {
      assert Join("\n", all) == "" + Join("\n", parts) + part;
      ContainsAround("", Join("\n", parts), part, text);
    } else {
      assert Join("\n", all) == "" + Join("\n", parts) + ("\n" + part);
      ContainsAround("", Join("\n", parts), "\n" + part, text);
    }
  }

  /** Afterwards each of the first three known issues is mentioned, and nothing is added exactly if all were before. */
  lemma KnowledgeMentioned(parts: seq<string>, knowledge: Knowledge)
    ensures var added := KnowledgeParts(parts, Some(knowledge));
      && (forall x :: x in Prefix(knowledge.knownIssues, 3) ==> Contains(Join("\n", parts + added), Prefix(x, 60)))
      && (added == [] <==>
        forall x :: x in Prefix(knowledge.knownIssues, 3) ==> Contains(Join("\n", parts), Prefix(x, 60)))
  {
    var issues, existing := Prefix(knowledge.knownIssues, 3), Join("\n", parts);
    var extra := ExtraIssues(issues, existing);
    ExtraExact(issues, existing);
    if extra == [] {
      assert parts + [] == parts;
    } else {
      assert extra[0] in issues;
      var lines := Join("\n", IssueLines(extra));
      var part := KNOWLEDGE_HEADING + lines;
      forall x | x in issues ensures Contains(Join("\n", parts + [part]), Prefix(x, 60)) {
        if x in extra {
          LinesQuote(extra, x);
          ContainsAround(KNOWLEDGE_HEADING, lines, "", Prefix(x, 60));
          assert KNOWLEDGE_HEADING + lines + "" == part;
        }
        JoinGrows(parts, part, Prefix(x, 60));
      }
    }
  }

  method CollectExtra(issues: seq<string>, existing: string) returns (extra: seq<string>)
    ensures extra == ExtraIssues(issues, existing)
  {
    extra := [];
    var i := 0;
    while i < |issues|
      invariant i <= |issues| && extra == ExtraIssues(issues[..i], existing)
    {
      var j := i + 1;
      assert issues[..j][..i] == issues[..i];
      if !Contains(existing, Prefix(issues[i], 60)) { extra := extra + [issues[i]]; }
      i := j;
    }
    assert issues[..|issues|] == issues;
  }

  method CollectBoundaries(reports: seq<Report>, parts: seq<string>) returns (out: seq<string>)
    ensures out == parts + BoundaryLines(reports)
  {
    out := parts;
    var i := 0;
    while i < |reports|
      invariant i <= |reports| && out == parts + BoundaryLines(reports[..i])
    {
      var j := i + 1;
      assert reports[..j][..i] == reports[..i];
      out := out + ["  - 当参数为 " + reports[i].arguments + " 时可能出现: " + reports[i].error];
      i := j;
    }
    assert reports[..|reports|] == reports;
  }

  method CollectFresh(description: string, parts: seq<string>) returns (added: seq<string>)
    ensures added == Fresh(description, parts)
  {
    added := [];
    var i := 0;
    while i < |parts|
      invariant i <= |parts| && added == Fresh(description, parts[..i])
    {
      var j := i + 1;
      assert parts[..j][..i] == parts[..i];
      var text := Strip(parts[i]);
      if text != "" && !Contains(description, text) { added := added + [parts[i]]; }
      i := j;
    }
    assert parts[..|parts|] == parts;
  }

  method CollectIssueParts(kind: IssueType, reports: seq<Report>, listing: seq<string> -> seq<string>)
    returns (parts: seq<string>)
    ensures parts == IssueParts(kind, reports, listing)
  {
    parts := [];
    match kind {
      case UnclearDescription =>
        parts := [UNCLEAR_HEADING + Phrase(reports, listing)];
        var suggestions := Suggestions(reports);
        if suggestions != [] { parts := parts + ["使用建议: " + Join("; ", Prefix(suggestions, 2))]; }
      case ParameterBoundary =>
        parts := [BOUNDARY_HEADING];
        parts := CollectBoundaries(Prefix(reports, 3), parts);
      case MissingFeature => parts := [MISSING_HEADING + Phrase(reports, listing)];
      case UnexpectedBehavior => parts := [UNEXPECTED_HEADING + Phrase(reports, listing)];
      case ErrorHandling => parts := [ERROR_HEADING + Phrase(reports, listing)];
      case OtherIssue =>
    }
  }

  method CollectKnowledge(before: seq<string>, knowledge: Option<Knowledge>) returns (parts: seq<string>)
    ensures parts == before + KnowledgeParts(before, knowledge)
    ensures knowledge.Some? ==> forall x :: x in Prefix(knowledge.value.knownIssues, 3) ==>
      Contains(Join("\n", parts), Prefix(x, 60))
  {
    if knowledge.Some? { KnowledgeMentioned(before, knowledge.value); }
    parts := before;
    if knowledge.Some? && (knowledge.value.knownIssues != [] || knowledge.value.otherEntries) {
      var extra := CollectExtra(Prefix(knowledge.value.knownIssues, 3), Join("\n", parts));
      if extra != [] {
        parts := parts + [KNOWLEDGE_HEADING + Join("\n", IssueLines(extra))];
      }
    }
  }

  /** The repaired description: the old text, then what the reports and the knowledge add to it. */
  method GenerateFixWithRules(kind: IssueType, description: string, reports: seq<Report>, knowledge: Option<Knowledge>,
                              listing: seq<string> -> seq<string>) returns (newDescription: string)
    ensures newDescription == Repaired(description, SuffixParts(kind, reports, knowledge, listing))
    ensures description <= newDescription
    ensures newDescription == Repaired(newDescription, SuffixParts(kind, reports, knowledge, listing))
    ensures forall p :: p in SuffixParts(kind, reports, knowledge, listing) ==> Contains(newDescription, Strip(p))
  {
    var parts := CollectIssueParts(kind, reports, listing);
    parts := CollectKnowledge(parts, knowledge);
    newDescription := description;
    if parts != [] {
      var added := CollectFresh(description, parts);
      if added != [] { newDescription := description + Join("\n", added); }
    }
    assert newDescription == Repaired(description, parts);
    RepairIdempotent(description, parts);
    forall p | p in parts ensures Contains(newDescription, Strip(p)) {
      if Strip(p) != "" {
        RepairCovers(description, parts, p);
      } else {
        assert OccursAt(newDescription, "", 0);
      }
    }
  }

  lemma OtherEnding(body: string, s: string, t: string)
    requires body != "" && !IsSpace(body[0]) && body[0] != '\n' && |s| == |t| > 0 && s[|s| - 1] != t[|t| - 1]
    ensures !Contains("\n\n" + body + s, body + t)
  {
    var text, part := "\n\n" + body + s, body + t;
    forall i: nat | i <= |text| ensures !OccursAt(text, part, i) {
      if i <= 1 { assert text[i] != part[0]; } else { assert text[|text| - 1] != part[|part| - 1]; }
    }
  }

  lemma StripHead(core: string)
    requires core != "" && !IsSpace(core[0]) && !IsSpace(core[|core| - 1])
    ensures Strip("\n\n" + core) == core
  {
    StripFirst('\n', core);
    StripFirst('\n', ['\n'] + core);
    assert "\n\n" + core == ['\n'] + (['\n'] + core);
  }

  lemma SingleFresh(description: string, part: string)
    requires Strip(part) != "" && !Contains(description, Strip(part))
    ensures Fresh(description, [part]) == [part]
  {
    assert [part][..0] == [];
  }

  lemma OtherEndingAppends(body: string, s: string, t: string)
    requires body != "" && !IsSpace(body[0]) && body[0] != '\n'
    requires |s| == |t| > 0 && s[|s| - 1] != t[|t| - 1] && !IsSpace(s[|s| - 1]) && !IsSpace(t[|t| - 1])
    ensures var a, b := "\n\n" + body + s, "\n\n" + body + t;
      Repaired("", [a]) == a && Repaired(a, [b]) != a
  {
    var a, b := "\n\n" + body + s, "\n\n" + body + t;
    assert a == "\n\n" + (body + s) && b == "\n\n" + (body + t);
    StripHead(body + s);
    StripHead(body + t);
    OtherEnding(body, s, t);
    SingleFresh("", a);
    assert b in [b] && IsFresh(a, b);
    UnchangedIffNothingFresh(a, [b]);
  }

  lemma TwoErrorParts(reports: seq<Report>, listing: seq<string> -> seq<string>, x: string, y: string)
    requires |reports| == 2 && listing([reports[0].error, reports[1].error]) == [x, y]
    ensures SuffixParts(ErrorHandling, reports, None, listing) == [ERROR_HEADING + (x + "; " + y)]
  {
    assert Errors(reports) == [reports[0].error, reports[1].error];
    assert [x, y][..1] == [x];
    assert Phrase(reports, listing) == Join("; ", [x, y]) == x + "; " + y == x + ("; " + y);
    var parts := IssueParts(ErrorHandling, reports, listing);
    assert parts + [] == parts;
  }

  /** With the set iterated in another order, as in a new process, the same reports count as a new finding. */
  lemma OtherListingAppendsAgain(first: seq<string> -> seq<string>, second: seq<string> -> seq<string>)
    requires first(["x", "y"]) == ["x", "y"] && second(["x", "y"]) == ["y", "x"]
    ensures var reports := [Report("x", "", "{}"), Report("y", "", "{}")];
      var once := Repaired("", SuffixParts(ErrorHandling, reports, None, first));
      Repaired(once, SuffixParts(ErrorHandling, reports, None, second)) != once
  {
    var reports := [Report("x", "", "{}"), Report("y", "", "{}")];
    var body := ERROR_HEADING[2..];
    assert ERROR_HEADING == "\n\n" + body;
    TwoErrorParts(reports, first, "x", "y");
    TwoErrorParts(reports, second, "y", "x");
    OtherEndingAppends(body, "x; y", "y; x");
    assert "x" + "; " + "y" == "x; y" && "y" + "; " + "x" == "y; x";
  }
}
