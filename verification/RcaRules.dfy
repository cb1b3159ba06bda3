/** The state graph, the root-cause-analysis validator and its close guard, and the time-to-resolve calculation. */
module RcaRules {
  import opened JsText
  import opened Options

  // ---------------------------------------------------------------- trimming

  function TrimStart(s: string): string {
    if s != "" && IsSpace(s[0]) then TrimStart(s[1..]) else s
  }

  function TrimEnd(s: string): string {
    if s != "" && IsSpace(s[|s| - 1]) then TrimEnd(s[..|s| - 1]) else s
  }

  function Trim(s: string): string {
    TrimEnd(TrimStart(s))
  }

  /** `core` is `s` without the white space around it. */
  ghost predicate IsCore(s: string, core: string) {
    && (core == "" || (!IsSpace(core[0]) && !IsSpace(core[|core| - 1])))
    && exists before, after :: AllSpace(before) && AllSpace(after) && s == before + core + after
  }

  lemma {:induction false} TrimStartSplits(s: string) returns (before: string)
    ensures AllSpace(before) && s == before + TrimStart(s)
    ensures TrimStart(s) == "" || !IsSpace(TrimStart(s)[0])
  {
    if s != "" && IsSpace(s[0]) {
      var rest := TrimStartSplits(s[1..]);
      before := [s[0]] + rest;
      Regrouped([s[0]], rest, TrimStart(s));
      assert s == [s[0]] + s[1..];
    } else {
      before := "";
    }
  }

  lemma {:induction false} TrimEndSplits(s: string) returns (after: string)
    ensures AllSpace(after) && s == TrimEnd(s) + after
    ensures TrimEnd(s) == "" || !IsSpace(TrimEnd(s)[|TrimEnd(s)| - 1])
    ensures |TrimEnd(s)| > 0 ==> TrimEnd(s)[0] == s[0]
  {
    if s != "" && IsSpace(s[|s| - 1]) {
      var rest := TrimEndSplits(s[..|s| - 1]);
      after := rest + [s[|s| - 1]];
      Regrouped(TrimEnd(s), rest, [s[|s| - 1]]);
      assert s == s[..|s| - 1] + [s[|s| - 1]];
    } else {
      after := "";
    }
  }

  lemma TrimIsCore(s: string)
    ensures IsCore(s, Trim(s))
  {
    var before := TrimStartSplits(s);
    var after := TrimEndSplits(TrimStart(s));
    assert s == before + Trim(s) + after;
  }

  /** String length as JavaScript counts it: characters beyond the basic plane take two units. */
  function Units(s: string): nat {
    if s == "" then 0 else (if s[0] as int >= 0x10000 then 2 else 1) + Units(s[1..])
  }

  // ---------------------------------------------------------------- validation

  const MIN_TEXT_FIELD_LENGTH := 10

  const ROOT_CAUSE_CATEGORIES: set<string> := {
    "CODE_DEFECT", "INFRASTRUCTURE_FAILURE", "CONFIGURATION_ERROR", "CAPACITY_EXHAUSTION",
    "EXTERNAL_DEPENDENCY", "NETWORK", "HUMAN_ERROR", "UNKNOWN" }

  /** A submitted date: absent, not a date at all, or a time in epoch milliseconds. */
  datatype Date = Absent | Invalid | At(ms: int)

  datatype Candidate = Candidate(
    start: Date, end: Date, category: Option<string>,
    description: Option<string>, fix: Option<string>, prevention: Option<string>)

  datatype Field = StartTime | EndTime | Category | Description | FixApplied | Prevention

  datatype Problem = Required | TooShort | UnknownCategory | NotAfterStart | BeforeFirstSignal | InFuture

  datatype FieldError = FieldError(field: Field, problem: Problem)

  function TextErrors(value: Option<string>, field: Field): seq<FieldError> {
    if value.None? || Trim(value.value) == "" then [FieldError(field, Required)]
    else if Units(Trim(value.value)) < MIN_TEXT_FIELD_LENGTH then [FieldError(field, TooShort)]
    else []
  }

  function When(condition: bool, field: Field, problem: Problem): seq<FieldError> {
    if condition then [FieldError(field, problem)] else []
  }

  function PresenceErrors(c: Candidate): seq<FieldError> {
    When(!c.start.At?, StartTime, Required)
    + When(!c.end.At?, EndTime, Required)
    + When(c.category.None? || Trim(c.category.value) == "", Category, Required)
    + When(c.category.Some? && Trim(c.category.value) != "" && c.category.value !in ROOT_CAUSE_CATEGORIES,
           Category, UnknownCategory)
  }

  function AllTextErrors(c: Candidate): seq<FieldError> {
    TextErrors(c.description, Description) + TextErrors(c.fix, FixApplied) + TextErrors(c.prevention, Prevention)
  }

  /** Comparisons are made only between dates that are dates. */
  function RelationErrors(c: Candidate, firstSignalAt: int, now: int): seq<FieldError> {
    When(c.start.At? && c.end.At? && c.end.ms <= c.start.ms, EndTime, NotAfterStart)
    + When(c.start.At? && c.start.ms < firstSignalAt, StartTime, BeforeFirstSignal)
    + When(c.start.At? && c.start.ms > now, StartTime, InFuture)
    + When(c.end.At? && c.end.ms > now, EndTime, InFuture)
  }

  /** The errors reported for a candidate, in order. */
  function ErrorsOf(c: Candidate, firstSignalAt: int, now: int): seq<FieldError> {
    PresenceErrors(c) + AllTextErrors(c) + RelationErrors(c, firstSignalAt, now)
  }

  /** A text with at least ten units between its surrounding white space. */
  ghost predicate Substantial(value: Option<string>) {
    value.Some? && exists core :: IsCore(value.value, core) && Units(core) >= 10
  }

  /** What an acceptable analysis is, stated without the validator. */
  ghost predicate Acceptable(c: Candidate, firstSignalAt: int, now: int) {
    && c.start.At? && c.end.At?
    && firstSignalAt <= c.start.ms < c.end.ms <= now
    && c.category.Some? && c.category.value in ROOT_CAUSE_CATEGORIES
    && Substantial(c.description) && Substantial(c.fix) && Substantial(c.prevention)
  }

  /** A solid character lies beyond any blank prefix and before any blank suffix. */
  lemma SolidInside(s: string, before: string, core: string, after: string, i: nat)
    requires s == before + core + after && AllSpace(before) && AllSpace(after)
    requires i < |s| && !IsSpace(s[i])
    ensures |before| <= i < |before| + |core|
  {
    assert forall k :: 0 <= k < |before| ==> s[k] == before[k];
    assert forall k :: 0 <= k < |after| ==> s[|before| + |core| + k] == after[k];
    var k := i - |before| - |core|;
    assert s[|before| + |core| + k] == s[i];
  }

  /** The ends of a solid core lie inside any other way to strip the text. */
  lemma CoreInside(s: string, p: string, a: string, q: string, u: string, b: string, v: string)
    requires s == p + a + q && s == u + b + v && AllSpace(u) && AllSpace(v)
    requires a != "" && !IsSpace(a[0]) && !IsSpace(a[|a| - 1])
    ensures |u| <= |p| && |p| + |a| <= |u| + |b|
  {
    assert s[|p|] == a[0] && s[|p| + |a| - 1] == a[|a| - 1];
    SolidInside(s, u, b, v, |p|);
    SolidInside(s, u, b, v, |p| + |a| - 1);
  }

  lemma CoreIsSlice(s: string, p: string, a: string, q: string)
    requires s == p + a + q
    ensures |p| + |a| <= |s| && a == s[|p|..|p| + |a|]
  {
  }

  /** Only white space surrounds a core, so a text has exactly one. */
  lemma CoreIsUnique(s: string, a: string, b: string)
    requires IsCore(s, a) && IsCore(s, b)
    ensures a == b
  {
    var p, q :| AllSpace(p) && AllSpace(q) && s == p + a + q;
    var u, v :| AllSpace(u) && AllSpace(v) && s == u + b + v;
    CoreIsSlice(s, p, a, q);
    CoreIsSlice(s, u, b, v);
    if a != "" { CoreInside(s, p, a, q, u, b, v); }
    if b != "" { CoreInside(s, u, b, v, p, a, q); }
  }

  lemma TextAccepted(value: Option<string>, field: Field)
    ensures TextErrors(value, field) == [] <==> Substantial(value)
  {
    if value.Some? {
      TrimIsCore(value.value);
      if Substantial(value) {
        var core :| IsCore(value.value, core) && Units(core) >= MIN_TEXT_FIELD_LENGTH;
        CoreIsUnique(value.value, core, Trim(value.value));
      }
    }
  }

  /** No listed category is blank, so "blank" and "unlisted" never overlap. */
  lemma CategoriesSolid(c: string)
    requires c in ROOT_CAUSE_CATEGORIES
    ensures Trim(c) != ""
  {
    assert c[0] in {'C', 'I', 'E', 'N', 'H', 'U'};
    BlankIffAllSpace(c);
  }

  /** The validator accepts exactly the acceptable candidates. */
  lemma ValidExactly(c: Candidate, firstSignalAt: int, now: int)
    ensures ErrorsOf(c, firstSignalAt, now) == [] <==> Acceptable(c, firstSignalAt, now)
  {
    TextAccepted(c.description, Description);
    TextAccepted(c.fix, FixApplied);
    TextAccepted(c.prevention, Prevention);
    if c.category.Some? && c.category.value in ROOT_CAUSE_CATEGORIES { CategoriesSolid(c.category.value); }
  }

  /** Whether a given complaint about a candidate is justified. */
  ghost predicate Justified(e: FieldError, c: Candidate, firstSignalAt: int, now: int) {
    match e
    case FieldError(StartTime, Required) => !c.start.At?
    case FieldError(EndTime, Required) => !c.end.At?
    case FieldError(Category, Required) => c.category.None? || AllSpace(c.category.value)
    case FieldError(Category, UnknownCategory) =>
      c.category.Some? && !AllSpace(c.category.value) && c.category.value !in ROOT_CAUSE_CATEGORIES
    case FieldError(Description, p) => TextJustified(p, c.description)
    case FieldError(FixApplied, p) => TextJustified(p, c.fix)
    case FieldError(Prevention, p) => TextJustified(p, c.prevention)
    case FieldError(EndTime, NotAfterStart) => c.start.At? && c.end.At? && c.end.ms <= c.start.ms
    case FieldError(StartTime, BeforeFirstSignal) => c.start.At? && c.start.ms < firstSignalAt
    case FieldError(StartTime, InFuture) => c.start.At? && c.start.ms > now
    case FieldError(EndTime, InFuture) => c.end.At? && c.end.ms > now
    case _ => false
  }

  ghost predicate TextJustified(p: Problem, value: Option<string>) {
    match p
    case Required => value.None? || AllSpace(value.value)
    case TooShort => value.Some? && !AllSpace(value.value) && !Substantial(value)
    case _ => false
  }

  lemma BlankIffAllSpace(s: string)
    ensures Trim(s) == "" <==> AllSpace(s)
  {
    TrimIsCore(s);
    if AllSpace(s) {
      assert AllSpace("") && s == s + "" + "";
      assert IsCore(s, "");
      CoreIsUnique(s, "", Trim(s));
    }
    if Trim(s) == "" {
      var p, q :| AllSpace(p) && AllSpace(q) && s == p + Trim(s) + q;
      assert s == p + q;
    }
  }

  lemma TextReported(value: Option<string>, field: Field, e: FieldError)
    ensures e in TextErrors(value, field) <==> e.field == field && TextJustified(e.problem, value)
  {
    TextAccepted(value, field);
    if value.Some? { BlankIffAllSpace(value.value); }
  }

  lemma TextsReported(e: FieldError, c: Candidate)
    ensures e in AllTextErrors(c) <==>
      || (e.field == Description && TextJustified(e.problem, c.description))
      || (e.field == FixApplied && TextJustified(e.problem, c.fix))
      || (e.field == Prevention && TextJustified(e.problem, c.prevention))
  {
    TextReported(c.description, Description, e);
    TextReported(c.fix, FixApplied, e);
    TextReported(c.prevention, Prevention, e);
  }

  lemma PresenceReported(e: FieldError, c: Candidate)
    ensures e in PresenceErrors(c) <==>
      || (e == FieldError(StartTime, Required) && !c.start.At?)
      || (e == FieldError(EndTime, Required) && !c.end.At?)
      || (e == FieldError(Category, Required) && (c.category.None? || AllSpace(c.category.value)))
      || (e == FieldError(Category, UnknownCategory) && c.category.Some? && !AllSpace(c.category.value)
          && c.category.value !in ROOT_CAUSE_CATEGORIES)
  {
    if c.category.Some? { BlankIffAllSpace(c.category.value); }
  }

  /** A field error is reported exactly when it is justified. */
  lemma ReportsExactly(e: FieldError, c: Candidate, firstSignalAt: int, now: int)
    ensures e in ErrorsOf(c, firstSignalAt, now) <==> Justified(e, c, firstSignalAt, now)
  {
    TextsReported(e, c);
    PresenceReported(e, c);
  }

  /** The source's shape: errors pushed one after the other onto a local array. */
  method ValidateRca(c: Candidate, firstSignalAt: int, now: int) returns (errors: seq<FieldError>)
    ensures errors == ErrorsOf(c, firstSignalAt, now)
    ensures errors == [] <==> Acceptable(c, firstSignalAt, now)
  {
    ValidExactly(c, firstSignalAt, now);
    errors := When(!c.start.At?, StartTime, Required);
    errors := errors + When(!c.end.At?, EndTime, Required);
    errors := errors + When(c.category.None? || Trim(c.category.value) == "", Category, Required);
    errors := errors + When(c.category.Some? && Trim(c.category.value) != "" && c.category.value !in ROOT_CAUSE_CATEGORIES,
                            Category, UnknownCategory);
    var texts := TextErrors(c.description, Description);
    texts := texts + TextErrors(c.fix, FixApplied);
    texts := texts + TextErrors(c.prevention, Prevention);
    errors := errors + texts;
    var relations := When(c.start.At? && c.end.At? && c.end.ms <= c.start.ms, EndTime, NotAfterStart);
    relations := relations + When(c.start.At? && c.start.ms < firstSignalAt, StartTime, BeforeFirstSignal);
    relations := relations + When(c.start.At? && c.start.ms > now, StartTime, InFuture);
    relations := relations + When(c.end.At? && c.end.ms > now, EndTime, InFuture);
    errors := errors + relations;
  }

  /** The place of an error among those that can be reported. */
  function Place(e: FieldError): int {
    match e
    case FieldError(StartTime, Required) => 0
    case FieldError(EndTime, Required) => 1
    case FieldError(Category, Required) => 2
    case FieldError(Category, UnknownCategory) => 3
    case FieldError(Description, _) => 4
    case FieldError(FixApplied, _) => 5
    case FieldError(Prevention, _) => 6
    case FieldError(EndTime, NotAfterStart) => 7
    case FieldError(StartTime, BeforeFirstSignal) => 8
    case FieldError(StartTime, InFuture) => 9
    case FieldError(EndTime, InFuture) => 10
    case _ => 11
  }

  /** The errors stand in the order of their places, from `from` up to before `to`, none twice. */
  predicate Placed(es: seq<FieldError>, from: int, to: int) {
    && (forall i :: 0 <= i < |es| ==> from <= Place(es[i]) < to)
    && (forall i, j :: 0 <= i < j < |es| ==> Place(es[i]) < Place(es[j]))
  }

  lemma PlacedConcat(a: seq<FieldError>, b: seq<FieldError>, from: int, mid: int, to: int)
    requires Placed(a, from, mid) && Placed(b, mid, to) && from <= mid <= to
    ensures Placed(a + b, from, to)
  {
  }

  lemma PlacedFour(a: seq<FieldError>, b: seq<FieldError>, c: seq<FieldError>, d: seq<FieldError>, from: int)
    requires Placed(a, from, from + 1) && Placed(b, from + 1, from + 2) && Placed(c, from + 2, from + 3) && Placed(d, from + 3, from + 4)
    ensures Placed(a + b + c + d, from, from + 4)
  {
    PlacedConcat(a, b, from, from + 1, from + 2);
    PlacedConcat(a + b, c, from, from + 2, from + 3);
    PlacedConcat(a + b + c, d, from, from + 3, from + 4);
  }

  lemma OnePlaced(condition: bool, field: Field, problem: Problem)
    ensures Placed(When(condition, field, problem), Place(FieldError(field, problem)), Place(FieldError(field, problem)) + 1)
  {
  }

  /** Four checks in the order of their places. */
  lemma FourChecks(p: bool, e: FieldError, q: bool, f: FieldError, r: bool, g: FieldError, t: bool, h: FieldError)
    requires Place(f) == Place(e) + 1 && Place(g) == Place(e) + 2 && Place(h) == Place(e) + 3
    ensures Placed(When(p, e.field, e.problem) + When(q, f.field, f.problem) + When(r, g.field, g.problem)
                   + When(t, h.field, h.problem), Place(e), Place(e) + 4)
  {
    OnePlaced(p, e.field, e.problem);
    OnePlaced(q, f.field, f.problem);
    OnePlaced(r, g.field, g.problem);
    OnePlaced(t, h.field, h.problem);
    PlacedFour(When(p, e.field, e.problem), When(q, f.field, f.problem), When(r, g.field, g.problem), When(t, h.field, h.problem), Place(e));
  }

  lemma PresencePlaced(c: Candidate)
    ensures Placed(PresenceErrors(c), 0, 4)
  {
    FourChecks(!c.start.At?, FieldError(StartTime, Required),
               !c.end.At?, FieldError(EndTime, Required),
               c.category.None? || Trim(c.category.value) == "", FieldError(Category, Required),
               c.category.Some? && Trim(c.category.value) != "" && c.category.value !in ROOT_CAUSE_CATEGORIES,
               FieldError(Category, UnknownCategory));
  }

  lemma TextsPlaced(c: Candidate)
    ensures Placed(AllTextErrors(c), 4, 7)
  {
    var a, b, d := TextErrors(c.description, Description), TextErrors(c.fix, FixApplied), TextErrors(c.prevention, Prevention);
    PlacedConcat(a, b, 4, 5, 6);
    PlacedConcat(a + b, d, 4, 6, 7);
  }

  lemma RelationsPlaced(c: Candidate, firstSignalAt: int, now: int)
    ensures Placed(RelationErrors(c, firstSignalAt, now), 7, 11)
  {
    FourChecks(c.start.At? && c.end.At? && c.end.ms <= c.start.ms, FieldError(EndTime, NotAfterStart),
               c.start.At? && c.start.ms < firstSignalAt, FieldError(StartTime, BeforeFirstSignal),
               c.start.At? && c.start.ms > now, FieldError(StartTime, InFuture),
               c.end.At? && c.end.ms > now, FieldError(EndTime, InFuture));
  }

  /** Missing fields come first, then the texts, then the comparisons; no error is reported twice. */
  lemma ErrorsInOrder(c: Candidate, firstSignalAt: int, now: int)
    ensures Placed(ErrorsOf(c, firstSignalAt, now), 0, 11)
  {
    PresencePlaced(c);
    TextsPlaced(c);
    RelationsPlaced(c, firstSignalAt, now);
    PlacedConcat(PresenceErrors(c), AllTextErrors(c), 0, 4, 7);
    PlacedConcat(PresenceErrors(c) + AllTextErrors(c), RelationErrors(c, firstSignalAt, now), 0, 7, 11);
  }

  // ---------------------------------------------------------------- the state graph

  datatype Status = OPEN | INVESTIGATING | RESOLVED | CLOSED

  /** The single edge out of a state; CLOSED has none. */
  function Target(s: Status): Option<Status> {
    match s
    case OPEN => Some(INVESTIGATING)
    case INVESTIGATING => Some(RESOLVED)
    case RESOLVED => Some(CLOSED)
    case CLOSED => None
  }

  /** The close guard: a payload is present and the validator finds nothing wrong with it. */
  predicate CanClose(payload: Option<Candidate>, firstSignalAt: int, now: int) {
    payload.Some? && ErrorsOf(payload.value, firstSignalAt, now) == []
  }

  /** `transition`: only along the edge, and out of RESOLVED only past the guard. */
  predicate MayTransition(from: Status, to: Status, payload: Option<Candidate>, firstSignalAt: int, now: int) {
    Target(from) == Some(to) && (from == RESOLVED ==> CanClose(payload, firstSignalAt, now))
  }

  function LegalNextStates(s: Status): seq<Status> {
    if Target(s).Some? then [Target(s).value] else []
  }

  lemma {:induction false} UnitsAtLeast(s: string)
    ensures Units(s) >= |s|
  {
    if s != "" { UnitsAtLeast(s[1..]); }
  }

  lemma TextWithoutSpaces(s: string)
    requires |s| >= MIN_TEXT_FIELD_LENGTH && forall i :: 0 <= i < |s| ==> !IsSpace(s[i])
    ensures Substantial(Some(s))
  {
    assert AllSpace("") && s == "" + s + "";
    assert IsCore(s, s);
    UnitsAtLeast(s);
  }

  /** An analysis that passes for an incident that began at `firstSignalAt`. */
  lemma SomeCandidatePasses(firstSignalAt: int) returns (c: Candidate)
    ensures CanClose(Some(c), firstSignalAt, firstSignalAt + 1)
  {
    var text := "0123456789";
    TextWithoutSpaces(text);
    c := Candidate(At(firstSignalAt), At(firstSignalAt + 1), Some("UNKNOWN"), Some(text), Some(text), Some(text));
    ValidExactly(c, firstSignalAt, firstSignalAt + 1);
  }

  /** The states listed as next are those that some payload can reach at some time. */
  lemma NextStatesExactly(s: Status, to: Status)
    ensures to in LegalNextStates(s) <==>
      exists payload: Option<Candidate>, firstSignalAt: int, now: int :: MayTransition(s, to, payload, firstSignalAt, now)
  {
    if to in LegalNextStates(s) {
      var c := SomeCandidatePasses(0);
      assert MayTransition(s, to, Some(c), 0, 1);
    }
  }

  // ---------------------------------------------------------------- time to resolve

  datatype Mttr = Seconds(value: nat) | ClockSkew

  /** `Math.round(diff / 1000)` on a non-negative whole number of milliseconds. */
  function CalculateMttr(firstSignalAt: int, submittedAt: int): Mttr {
    var diff := submittedAt - firstSignalAt;
    if diff < 0 then ClockSkew else Seconds((diff + 500) / 1000)
  }

  /** The nearest whole second, halves going up. */
  predicate IsRounded(seconds: nat, ms: int) {
    ms - 500 < seconds * 1000 <= ms + 500
  }

  lemma MttrIsRounded(firstSignalAt: int, submittedAt: int)
    ensures CalculateMttr(firstSignalAt, submittedAt) == ClockSkew <==> submittedAt < firstSignalAt
    ensures firstSignalAt <= submittedAt ==>
            IsRounded(CalculateMttr(firstSignalAt, submittedAt).value, submittedAt - firstSignalAt)
  {
  }

  /** Past the close guard the two clocks cannot disagree. */
  lemma GuardExcludesSkew(payload: Option<Candidate>, firstSignalAt: int, now: int)
    ensures CanClose(payload, firstSignalAt, now) ==> CalculateMttr(firstSignalAt, now).Seconds?
  {
    if payload.Some? { ValidExactly(payload.value, firstSignalAt, now); }
  }
}
