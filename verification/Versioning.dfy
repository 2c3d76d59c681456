/** Tool version numbers: parsing, comparing and bumping (youmi/core/versioning.py). */
module Versioning {
  import opened Common
  import opened Text
  import opened Decimal

  datatype Version = Version(major: nat, minor: nat, patch: nat)

  datatype Stage = Candidate | Stable

  datatype Origin = External | Generated

  /** UnknownKind stands for any other change kind, None included. */
  datatype ChangeKind = Breaking | Feature | Fix | UnknownKind

  const GENERATED_INITIAL_VERSION: string := "0.0.1"
  const STABLE_INITIAL_VERSION: string := "1.0.0"

  predicate IsNumeral(s: string) {
    s != "" && AllDigits(s)
  }

  /** MAJOR.MINOR.PATCH in plain ASCII digits, surrounding whitespace ignored. */
  function ParseSemver(text: string): Option<Version> {
    var parts := Split(Strip(text), '.');
    if |parts| == 3 && IsNumeral(parts[0]) && IsNumeral(parts[1]) && IsNumeral(parts[2])
    then Some(Version(Value(parts[0]), Value(parts[1]), Value(parts[2])))
    else None
  }

  function PrintVersion(v: Version): string {
    Print(v.major) + "." + Print(v.minor) + "." + Print(v.patch)
  }

  // ---- Parsing inverts printing ----

  lemma NumeralHasNoDot(s: string)
    requires AllDigits(s)
    ensures '.' !in s
  {
  }

  lemma SplitThree(a: string, b: string, c: string)
    requires '.' !in a && '.' !in b && '.' !in c
    ensures Split(a + "." + b + "." + c, '.') == [a, b, c]
  {
    SplitNone(a, '.');
    SplitAppend(a, '.', b);
    SplitAppend(a + "." + b, '.', c);
  }

  lemma ParsePrint(v: Version)
    ensures ParseSemver(PrintVersion(v)) == Some(v)
  {
    var a, b, c := Print(v.major), Print(v.minor), Print(v.patch);
    PrintValue(v.major);
    PrintValue(v.minor);
    PrintValue(v.patch);
    NumeralHasNoDot(a);
    NumeralHasNoDot(b);
    NumeralHasNoDot(c);
    SplitThree(a, b, c);
    var text := PrintVersion(v);
    assert text[0] == a[0] && text[|text| - 1] == c[|c| - 1];
    StripNothing(text);
  }

  ghost predicate PlainNumeral(s: string) {
    |s| == 1 || (s != "" && s[0] != '0')
  }

  lemma JoinThree(parts: seq<string>)
    requires |parts| == 3
    ensures Join(".", parts) == parts[0] + "." + parts[1] + "." + parts[2]
  {
    var two := parts[..2];
    assert parts[..|parts| - 1] == two && two[..|two| - 1] == [parts[0]];
    assert Join(".", [parts[0]]) == parts[0];
    assert Join(".", two) == parts[0] + "." + parts[1];
  }

  /** A legal version text prints back as it was exactly when it has no surrounding whitespace and no leading zeros. */
  lemma PrintParse(text: string)
    requires ParseSemver(text).Some?
    ensures PrintVersion(ParseSemver(text).value) == text <==>
      Strip(text) == text && forall p :: p in Split(text, '.') ==> PlainNumeral(p)
  {
    var core := Strip(text);
    var parts := Split(core, '.');
    var a, b, c := parts[0], parts[1], parts[2];
    if core == text && PlainNumeral(a) && PlainNumeral(b) && PlainNumeral(c) {
      ValuePrint(a);
      ValuePrint(b);
      ValuePrint(c);
      JoinSplit(core, '.');
      JoinThree(parts);
    }
    if PrintVersion(ParseSemver(text).value) == text { PrintedIsPlain(ParseSemver(text).value); }
  }

  lemma PrintedIsPlain(v: Version)
    ensures var text := PrintVersion(v);
      Strip(text) == text && forall p :: p in Split(text, '.') ==> PlainNumeral(p)
  {
    var a, b, c := Print(v.major), Print(v.minor), Print(v.patch);
    PrintValue(v.major);
    PrintValue(v.minor);
    PrintValue(v.patch);
    NumeralHasNoDot(a);
    NumeralHasNoDot(b);
    NumeralHasNoDot(c);
    SplitThree(a, b, c);
    var text := PrintVersion(v);
    assert text[0] == a[0] && text[|text| - 1] == c[|c| - 1];
    StripNothing(text);
    PrintHead(v.major);
    PrintHead(v.minor);
    PrintHead(v.patch);
  }

  // ---- Comparing ----

  predicate Greater(a: Version, b: Version) {
    || a.major > b.major
    || (a.major == b.major && a.minor > b.minor)
    || (a.major == b.major && a.minor == b.minor && a.patch > b.patch)
  }

  /** -1, 0 or 1; an illegal version counts as the smallest. */
  function CompareVersions(left: string, right: string): int {
    var l, r := ParseSemver(left), ParseSemver(right);
    if l.None? && r.None? then 0
    else if l.None? then -1
    else if r.None? then 1
    else (if Greater(l.value, r.value) then 1 else 0) - (if Greater(r.value, l.value) then 1 else 0)
  }

  /** The comparison is a total preorder: antisymmetric in sign and transitive. */
  lemma CompareIsOrder(a: string, b: string, c: string)
    ensures CompareVersions(a, b) == -CompareVersions(b, a) && -1 <= CompareVersions(a, b) <= 1
    ensures CompareVersions(a, b) <= 0 && CompareVersions(b, c) <= 0 ==> CompareVersions(a, c) <= 0
    ensures CompareVersions(a, b) < 0 && CompareVersions(b, c) <= 0 ==> CompareVersions(a, c) < 0
    ensures CompareVersions(a, b) == 0 <==> ParseSemver(a) == ParseSemver(b)
  {
  }

  function StageOf(text: string): Stage {
    var v := ParseSemver(text);
    if v.Some? && v.value.major >= 1 then Stable else Candidate
  }

  /** declared is None when no version was declared. */
  function ResolveInitialVersion(declared: Option<string>, origin: Origin): string {
    if origin == External &&
      (declared.None? || declared.value == "" || declared.value == GENERATED_INITIAL_VERSION)
    then STABLE_INITIAL_VERSION
    else if declared.Some? && ParseSemver(declared.value).Some? then declared.value
    else if origin == External then STABLE_INITIAL_VERSION
    else GENERATED_INITIAL_VERSION
  }

  lemma InitialVersions()
    ensures ParseSemver(GENERATED_INITIAL_VERSION) == Some(Version(0, 0, 1))
    ensures ParseSemver(STABLE_INITIAL_VERSION) == Some(Version(1, 0, 0))
  {
    ParsePrint(Version(0, 0, 1));
    ParsePrint(Version(1, 0, 0));
    assert PrintVersion(Version(0, 0, 1)) == GENERATED_INITIAL_VERSION;
    assert PrintVersion(Version(1, 0, 0)) == STABLE_INITIAL_VERSION;
  }

  /** The initial version is legal, and a tool enters the stable stage exactly by these declarations. */
  lemma ResolvedVersion(declared: Option<string>, origin: Origin)
    ensures ParseSemver(ResolveInitialVersion(declared, origin)).Some?
    ensures StageOf(ResolveInitialVersion(declared, origin)) == Stable <==>
      || (declared.Some? && StageOf(declared.value) == Stable)
      || (origin == External &&
        (declared.None? || ParseSemver(declared.value).None? || declared.value == GENERATED_INITIAL_VERSION))
  {
    InitialVersions();
    EmptyIsIllegal();
  }

  /** A legal declaration is taken as it is, but the generated default of an external tool; else the origin decides. */
  lemma ResolvedExactly(declared: Option<string>, origin: Origin)
    ensures var legal := declared.Some? && ParseSemver(declared.value).Some?;
      var taken := legal && (origin == External ==> declared.value != "0.0.1");
      ResolveInitialVersion(declared, origin) ==
        if taken then declared.value else if origin == External then "1.0.0" else "0.0.1"
  {
    EmptyIsIllegal();
  }

  lemma EmptyIsIllegal()
    ensures ParseSemver("").None?
  {
    assert Split("", '.') == [""];
  }

  // ---- Bumping ----

  function Bumped(v: Version, kind: ChangeKind): Version {
    var effective := if kind == Breaking && v.major == 0 then Feature else kind;
    match effective
    case Breaking => Version(v.major + 1, 0, 0)
    case Feature => Version(v.major, v.minor + 1, 0)
    case _ => Version(v.major, v.minor, v.patch + 1)
  }

  function BumpFor(current: string, kind: ChangeKind): string {
    var parsed := ParseSemver(current);
    if parsed.None? then GENERATED_INITIAL_VERSION else PrintVersion(Bumped(parsed.value, kind))
  }

  lemma BumpReads(current: string, kind: ChangeKind)
    requires ParseSemver(current).Some?
    ensures ParseSemver(BumpFor(current, kind)) == Some(Bumped(ParseSemver(current).value, kind))
  {
    ParsePrint(Bumped(ParseSemver(current).value, kind));
  }

  /**
   * The numbers after a bump: a fix raises the last one, a feature the middle one and clears the last, a breaking
   * change of a stable tool raises the first and clears the others, of a candidate it counts as a feature; an illegal
   * version becomes 0.0.1.
   */
  lemma BumpValues(current: string)
    ensures ParseSemver(current).None? ==> forall kind :: ParseSemver(BumpFor(current, kind)) == Some(Version(0, 0, 1))
    ensures ParseSemver(current).Some? ==> var v := ParseSemver(current).value;
      && ParseSemver(BumpFor(current, Fix)) == Some(Version(v.major, v.minor, v.patch + 1))
      && ParseSemver(BumpFor(current, UnknownKind)) == Some(Version(v.major, v.minor, v.patch + 1))
      && ParseSemver(BumpFor(current, Feature)) == Some(Version(v.major, v.minor + 1, 0))
      && ParseSemver(BumpFor(current, Breaking)) ==
           Some(if v.major >= 1 then Version(v.major + 1, 0, 0) else Version(0, v.minor + 1, 0))
  {
    if ParseSemver(current).Some? {
      BumpReads(current, Fix);
      BumpReads(current, UnknownKind);
      BumpReads(current, Feature);
      BumpReads(current, Breaking);
    } else {
      InitialVersions();
    }
  }

  /** Every bump, even of an illegal version, is legal, strictly greater and in the same stage. */
  lemma BumpIncreases(current: string, kind: ChangeKind)
    ensures ParseSemver(BumpFor(current, kind)).Some?
    ensures CompareVersions(current, BumpFor(current, kind)) == -1
    ensures StageOf(BumpFor(current, kind)) == StageOf(current)
  {
    if ParseSemver(current).Some? {
      BumpReads(current, kind);
    } else {
      InitialVersions();
    }
  }

  /**
   * A heavier change never gives the smaller number; breaking and feature coincide only while the tool is a candidate.
   */
  lemma BumpsAreGraded(current: string)
    requires ParseSemver(current).Some?
    ensures CompareVersions(BumpFor(current, Fix), BumpFor(current, Feature)) == -1
    ensures CompareVersions(BumpFor(current, Feature), BumpFor(current, Breaking)) ==
      if StageOf(current) == Stable then -1 else 0
  {
    BumpReads(current, Fix);
    BumpReads(current, Feature);
    BumpReads(current, Breaking);
  }

  /** The version after a history of changes. */
  function BumpAll(start: string, kinds: seq<ChangeKind>): string {
    if kinds == [] then start else BumpFor(BumpAll(start, kinds[..|kinds| - 1]), kinds[|kinds| - 1])
  }

  /** Along any history versions strictly increase and the stage never changes. */
  lemma {:induction false} VersionsIncrease(start: string, kinds: seq<ChangeKind>, i: nat, j: nat)
    requires i <= j <= |kinds|
    ensures StageOf(BumpAll(start, kinds[..j])) == StageOf(start)
    ensures i < j ==> CompareVersions(BumpAll(start, kinds[..i]), BumpAll(start, kinds[..j])) == -1
    decreases j
  {
    if j > 0 {
      var k := j - 1;
      assert kinds[..j][..k] == kinds[..k];
      var before := BumpAll(start, kinds[..k]);
      BumpIncreases(before, kinds[k]);
      VersionsIncrease(start, kinds, if i < k then i else k, k);
      CompareIsOrder(BumpAll(start, kinds[..i]), before, BumpFor(before, kinds[k]));
    }
  }
}
