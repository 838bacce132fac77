/** The integration contract between an issue, its pull request and the merge
    gate: field choices, gate rules and the two validators. */
module IntegrationContract {
  import opened Text

  /** The contract's fields, in the order they are printed. */
  datatype Field =
    | Touchpoint
    | SharedContract
    | Reference
    | Dependency
    | Gate
    | Surface
    | JointAcceptance
    | CheckedBeforePr
    | CheckedBeforeMerge

  type Payload = map<Field, string>

  const ISSUE_FIELDS: seq<Field> :=
    [Touchpoint, SharedContract, Reference, Dependency, Gate, Surface, JointAcceptance]

  const PR_FIELDS: seq<Field> := ISSUE_FIELDS + [CheckedBeforePr, CheckedBeforeMerge]

  const CHECK_REQUIRED := "integration_check_required"

  function FieldName(f: Field): string {
    match f
    case Touchpoint => "integration_touchpoint"
    case SharedContract => "shared_contract_changed"
    case Reference => "integration_ref"
    case Dependency => "external_dependency"
    case Gate => "merge_gate"
    case Surface => "contract_surface"
    case JointAcceptance => "joint_acceptance_needed"
    case CheckedBeforePr => "integration_status_checked_before_pr"
    case CheckedBeforeMerge => "integration_status_checked_before_merge"
  }

  /** The allowed values of an enumerated field; the reference is free text. */
  function Choices(f: Field): set<string> {
    match f
    case Touchpoint => {"none", "check_required", "active", "blocked", "resolved"}
    case Dependency => {"none", "syvert", "webenvoy", "both"}
    case Gate => {"local_only", CHECK_REQUIRED}
    case Surface =>
      {"none", "execution_provider", "ids_trace", "errors", "raw_normalized", "diagnostics_observability",
       "runtime_modes"}
    case Reference => {}
    case _ => {"no", "yes"}
  }

  function Raw(p: Payload, field: Field): string {
    if field in p then Strip(p[field]) else ""
  }

  function Value(p: Payload, field: Field): string {
    Lower(Raw(p, field))
  }

  // ------------------------------------------------------------- references

  /** The forms of a reference that can be looked up: an issue, given by number,
      slug or URL, or a project item URL.  Each recogniser yields the identity
      it finds. */
  datatype RefForms = RefForms(issue: string -> IdentityOption, projectItem: string -> IdentityOption)

  datatype IdentityOption = NoIdentity | Identity(text: string)

  predicate Checkable(forms: RefForms, ref: string) {
    var s := Strip(ref);
    s != "" && Lower(s) != "none" && (forms.issue(s).Identity? || forms.projectItem(s).Identity?)
  }

  function NormalizedRef(forms: RefForms, ref: string): string {
    var s := Strip(ref);
    if s == "" then ""
    else if Lower(s) == "none" then "none"
    else
      match forms.issue(s)
      case Identity(i) => "issue:" + i
      case NoIdentity =>
        match forms.projectItem(s)
        case Identity(i) => "project-item:" + i
        case NoIdentity => s
  }

  /** Only the word itself normalises to none, whatever the reference looks like. */
  lemma NormalizesToNone(forms: RefForms, ref: string)
    ensures NormalizedRef(forms, ref) == "none" <==> Lower(Strip(ref)) == "none"
  {
    var s := Strip(ref);
    if s != "" && Lower(s) != "none" {
      match forms.issue(s)
      case Identity(i) => assert ("issue:" + i)[0] == 'i';
      case NoIdentity =>
        match forms.projectItem(s)
        case Identity(i) => assert ("project-item:" + i)[0] == 'p';
        case NoIdentity => LowerOfNone(s);
    }
  }

  lemma LowerOfNone(s: string)
    ensures s == "none" ==> Lower(s) == "none"
  {
  }

  // ------------------------------------------------------------------- rules

  datatype Operator = Equals | Differs

  datatype Rule = Rule(field: Field, operator: Operator, value: string)

  predicate Holds(rule: Rule, p: Payload) {
    if rule.operator == Equals then Value(p, rule.field) == Lower(rule.value)
    else Value(p, rule.field) != Lower(rule.value)
  }

  const GATE_RULES: seq<Rule> := [
    Rule(Touchpoint, Differs, "none"),
    Rule(SharedContract, Equals, "yes"),
    Rule(Dependency, Differs, "none"),
    Rule(Surface, Differs, "none"),
    Rule(JointAcceptance, Equals, "yes")
  ]

  predicate RequiresGate(p: Payload) {
    exists i :: 0 <= i < |GATE_RULES| && Holds(GATE_RULES[i], p)
  }

  predicate RequiresCheckableRef(p: Payload) {
    Holds(Rule(Touchpoint, Differs, "none"), p)
  }

  // -------------------------------------------------------------- validators

  /** The messages a validator reports, by the rule they come from. */
  datatype Problem =
    | InvalidChoice(field: Field)
    | MissingField(field: Field)
    | RefMissing
    | RefIsNone
    | RefNotCheckable
    | TouchpointMissing
    | PrCheckMissing
    | MergeCheckMissing
    | MergeCheckTooEarly
    | GateTooWeak
    | RefNotLocal
    | CanonicalMismatch(field: Field)

  function ChoiceProblems(p: Payload, fields: seq<Field>): seq<Problem> {
    if fields == [] then []
    else
      (if Choices(fields[0]) != {} && Value(p, fields[0]) !in Choices(fields[0]) then [InvalidChoice(fields[0])] else [])
      + ChoiceProblems(p, fields[1..])
  }

  function MissingProblems(p: Payload, fields: seq<Field>): seq<Problem> {
    if fields == [] then []
    else (if Raw(p, fields[0]) == "" then [MissingField(fields[0])] else []) + MissingProblems(p, fields[1..])
  }

  function Normalized(forms: RefForms, p: Payload, field: Field): string {
    if field == Reference then NormalizedRef(forms, Raw(p, field)) else Value(p, field)
  }

  function CanonicalProblems(forms: RefForms, issue: Payload, p: Payload, fields: seq<Field>): seq<Problem> {
    if fields == [] then []
    else
      (if Normalized(forms, issue, fields[0]) != Normalized(forms, p, fields[0]) then [CanonicalMismatch(fields[0])]
       else [])
      + CanonicalProblems(forms, issue, p, fields[1..])
  }

  function IssueProblems(forms: RefForms, issue: Payload, p: Payload): seq<Problem> {
    if issue == map[] then [] else CanonicalProblems(forms, issue, p, ISSUE_FIELDS)
  }

  function When(condition: bool, problem: Problem): seq<Problem> {
    if condition then [problem] else []
  }

  function RefProblems(forms: RefForms, p: Payload): seq<Problem> {
    var ref := Raw(p, Reference);
    if !RequiresCheckableRef(p) then []
    else if ref == "" then [RefMissing]
    else if Lower(ref) == "none" then [RefIsNone]
    else When(!Checkable(forms, ref), RefNotCheckable)
  }

  function TouchpointProblems(p: Payload): seq<Problem> {
    var untouched := Value(p, Touchpoint) == "none";
    When(RequiresGate(p) && Value(p, Gate) != CHECK_REQUIRED, GateTooWeak)
    + When(Value(p, Dependency) != "none" && untouched, TouchpointMissing)
    + When(Value(p, JointAcceptance) == "yes" && untouched, TouchpointMissing)
    + When(Value(p, Surface) != "none" && untouched, TouchpointMissing)
  }

  function LocalRefProblems(forms: RefForms, p: Payload): seq<Problem> {
    var ref := Raw(p, Reference);
    if ref == "" then [RefMissing]
    else if NormalizedRef(forms, ref) != "none" && !Checkable(forms, ref) then [RefNotCheckable]
    else When(NormalizedRef(forms, ref) != "none", RefNotLocal)
  }

  /** Validation before a pull request is opened. */
  function OpenPrProblems(forms: RefForms, p: Payload, issue: Payload): seq<Problem> {
    var ref := Raw(p, Reference);
    var gated := Value(p, Gate) == CHECK_REQUIRED;
    ChoiceProblems(p, PR_FIELDS)
    + RefProblems(forms, p)
    + (if gated then
         When(ref == "", RefMissing)
         + When(!Checkable(forms, ref), RefNotCheckable)
         + When(Value(p, Touchpoint) == "none", TouchpointMissing)
         + When(Value(p, CheckedBeforePr) != "yes", PrCheckMissing)
       else [])
    + When(Value(p, CheckedBeforeMerge) == "yes", MergeCheckTooEarly)
    + TouchpointProblems(p)
    + (if gated then [] else LocalRefProblems(forms, p))
    + IssueProblems(forms, issue, p)
  }

  /** Validation of the pull request description at the merge gate. */
  function MergeGateProblems(forms: RefForms, p: Payload, issue: Payload, requireRecheck: bool): seq<Problem> {
    var ref := Raw(p, Reference);
    var gate := Value(p, Gate);
    if gate == "" then [MissingField(Gate)]
    else if gate !in Choices(Gate) then [InvalidChoice(Gate)]
    else if MissingProblems(p, PR_FIELDS) != [] then MissingProblems(p, PR_FIELDS)
    else
      var common :=
        ChoiceProblems(p, PR_FIELDS) + IssueProblems(forms, issue, p) + RefProblems(forms, p) + TouchpointProblems(p);
      if gate != CHECK_REQUIRED then
        if RequiresGate(p) then common else common + LocalRefProblems(forms, p)
      else
        common
        + When(Value(p, Touchpoint) == "none", TouchpointMissing)
        + When(ref == "" || !Checkable(forms, ref), RefNotCheckable)
        + When(Value(p, CheckedBeforePr) != "yes", PrCheckMissing)
        + When(requireRecheck && Value(p, CheckedBeforeMerge) != "yes", MergeCheckMissing)
  }

  // --------------------------------------------------------------- dichotomy

  /** A wholly local pull request touches nothing outside the repository. */
  predicate WhollyLocal(forms: RefForms, p: Payload) {
    && Value(p, Gate) != CHECK_REQUIRED
    && NormalizedRef(forms, Raw(p, Reference)) == "none"
    && Value(p, Touchpoint) == "none"
    && Value(p, SharedContract) != "yes"
    && Value(p, Dependency) == "none"
    && Value(p, Surface) == "none"
    && Value(p, JointAcceptance) != "yes"
  }

  /** An integrated pull request has a touchpoint, a reference that can be looked
      up and a recorded check. */
  predicate Integrated(forms: RefForms, p: Payload) {
    && Value(p, Gate) == CHECK_REQUIRED
    && Value(p, Touchpoint) != "none"
    && Checkable(forms, Raw(p, Reference))
    && Value(p, CheckedBeforePr) == "yes"
  }

  predicate ValidChoices(p: Payload) {
    forall f :: f in PR_FIELDS && Choices(f) != {} ==> Value(p, f) in Choices(f)
  }

  predicate MatchesIssue(forms: RefForms, issue: Payload, p: Payload) {
    issue != map[] ==> forall f :: f in ISSUE_FIELDS ==> Normalized(forms, issue, f) == Normalized(forms, p, f)
  }

  lemma {:induction false} NoChoiceProblems(p: Payload, fields: seq<Field>)
    ensures ChoiceProblems(p, fields) == [] <==>
            forall f :: f in fields && Choices(f) != {} ==> Value(p, f) in Choices(f)
  {
    hide Choices, Value;
    if fields != [] {
      NoChoiceProblems(p, fields[1..]);
      assert fields == [fields[0]] + fields[1..];
    }
  }

  lemma {:induction false} NoMissingProblems(p: Payload, fields: seq<Field>)
    ensures MissingProblems(p, fields) == [] <==> forall f :: f in fields ==> Raw(p, f) != ""
  {
    hide Raw;
    if fields != [] {
      NoMissingProblems(p, fields[1..]);
      assert fields == [fields[0]] + fields[1..];
    }
  }

  lemma {:induction false} NoCanonicalProblems(forms: RefForms, issue: Payload, p: Payload, fields: seq<Field>)
    ensures CanonicalProblems(forms, issue, p, fields) == [] <==>
            forall f :: f in fields ==> Normalized(forms, issue, f) == Normalized(forms, p, f)
  {
    hide Normalized;
    if fields != [] {
      NoCanonicalProblems(forms, issue, p, fields[1..]);
      assert fields == [fields[0]] + fields[1..];
    }
  }

  lemma GateRulesSpelledOut(p: Payload)
    ensures RequiresGate(p) <==>
            || Value(p, Touchpoint) != "none" || Value(p, SharedContract) == "yes" || Value(p, Dependency) != "none"
            || Value(p, Surface) != "none" || Value(p, JointAcceptance) == "yes"
    ensures RequiresCheckableRef(p) <==> Value(p, Touchpoint) != "none"
  {
    hide Value;
    LowerOfNone("none");
    assert Lower("yes") == "yes";
    assert Holds(GATE_RULES[0], p) <==> Value(p, Touchpoint) != "none";
    assert Holds(GATE_RULES[1], p) <==> Value(p, SharedContract) == "yes";
    assert Holds(GATE_RULES[2], p) <==> Value(p, Dependency) != "none";
    assert Holds(GATE_RULES[3], p) <==> Value(p, Surface) != "none";
    assert Holds(GATE_RULES[4], p) <==> Value(p, JointAcceptance) == "yes";
  }

  lemma CheckableIsNotNone(forms: RefForms, p: Payload)
    ensures Checkable(forms, Raw(p, Reference)) ==> Raw(p, Reference) != "" && Lower(Raw(p, Reference)) != "none"
  {
    StripIdempotent(p, Reference);
  }

  lemma StripIdempotent(p: Payload, field: Field)
    ensures Strip(Raw(p, field)) == Raw(p, field)
  {
    if field in p {
      StripIsTrimmed(p[field]);
      StripOfTrimmed(Strip(p[field]));
    }
  }

  /** A payload may open a pull request exactly when its choices are valid, the
      merge-time check is still open, it matches its issue, and it is either
      wholly local or integrated. */
  lemma OpenGateIsExact(forms: RefForms, p: Payload, issue: Payload)
    ensures OpenPrProblems(forms, p, issue) == [] <==>
            && ValidChoices(p) && Value(p, CheckedBeforeMerge) != "yes" && MatchesIssue(forms, issue, p)
            && (WhollyLocal(forms, p) || Integrated(forms, p))
  {
    hide Value, Checkable, NormalizedRef, RequiresGate, RequiresCheckableRef, Raw, Choices;
    NoChoiceProblems(p, PR_FIELDS);
    NoCanonicalProblems(forms, issue, p, ISSUE_FIELDS);
    GateRulesSpelledOut(p);
    CheckableIsNotNone(forms, p);
    NormalizedRaw(forms, p);
  }

  lemma NormalizedRaw(forms: RefForms, p: Payload)
    ensures NormalizedRef(forms, Raw(p, Reference)) == "none" <==> Lower(Raw(p, Reference)) == "none"
    ensures Lower(Raw(p, Reference)) == "none" ==> Raw(p, Reference) != ""
  {
    StripIdempotent(p, Reference);
    NormalizesToNone(forms, Raw(p, Reference));
  }

  /** A payload passes the merge gate exactly when no field is missing, its
      choices are valid, it matches its issue, and it is either wholly local or
      integrated, in the latter case with the merge-time check recorded when it
      is asked for. */
  lemma MergeGateIsExact(forms: RefForms, p: Payload, issue: Payload, requireRecheck: bool)
    ensures MergeGateProblems(forms, p, issue, requireRecheck) == [] <==>
            && (forall f :: f in PR_FIELDS ==> Raw(p, f) != "")
            && ValidChoices(p) && MatchesIssue(forms, issue, p)
            && (WhollyLocal(forms, p)
                || (Integrated(forms, p) && (requireRecheck ==> Value(p, CheckedBeforeMerge) == "yes")))
  {
    hide Value, Checkable, NormalizedRef, RequiresGate, RequiresCheckableRef, Raw, Choices;
    NoChoiceProblems(p, PR_FIELDS);
    NoMissingProblems(p, PR_FIELDS);
    NoCanonicalProblems(forms, issue, p, ISSUE_FIELDS);
    GateRulesSpelledOut(p);
    CheckableIsNotNone(forms, p);
    NormalizedRaw(forms, p);
    GateChoiceIsListed(p);
  }

  lemma GateChoiceIsListed(p: Payload)
    ensures ValidChoices(p) ==> Value(p, Gate) in Choices(Gate) && Value(p, Gate) != ""
    ensures Choices(Gate) == {"local_only", CHECK_REQUIRED}
  {
    hide Value;
    assert PR_FIELDS[4] == Gate;
  }

  // --------------------------------------------------------------- end to end

  /** A payload that was allowed to open a pull request passes the merge gate
      once the merge-time check is recorded in it, for the same issue. */
  lemma OpenedThenRecheckedPassesGate(forms: RefForms, p: Payload, issue: Payload)
    requires OpenPrProblems(forms, p, issue) == []
    ensures MergeGateProblems(forms, p[CheckedBeforeMerge := "yes"], issue, true) == []
  {
    hide Value, Checkable, NormalizedRef, Raw, Choices, OpenPrProblems, MergeGateProblems, Normalized;
    var q := p[CheckedBeforeMerge := "yes"];
    OpenGateIsExact(forms, p, issue);
    RecheckKeepsOtherFields(forms, p);
    RecheckKeepsChoices(forms, p);
    FieldsArePresent(forms, q);
    MergeGateIsExact(forms, q, issue, true);
  }

  lemma RecheckKeepsChoices(forms: RefForms, p: Payload)
    requires ValidChoices(p)
    ensures ValidChoices(p[CheckedBeforeMerge := "yes"])
  {
    hide Value, Choices, Normalized, Raw;
    var q := p[CheckedBeforeMerge := "yes"];
    RecheckKeepsOtherFields(forms, p);
    YesIsAChoice();
    forall f | f in PR_FIELDS && Choices(f) != {}
      ensures Value(q, f) in Choices(f)
    {
      assert f == CheckedBeforeMerge || Value(q, f) == Value(p, f);
    }
  }

  lemma YesIsAChoice()
    ensures "yes" in Choices(CheckedBeforeMerge)
  {
  }

  lemma RawOfUpdated(p: Payload, g: Field, v: string, f: Field)
    ensures Raw(p[g := v], f) == if f == g then Strip(v) else Raw(p, f)
  {
    hide Strip;
  }

  lemma LowerYes()
    ensures Lower(Strip("yes")) == "yes"
  {
    hide Strip, StripLeft, StripRight;
    StripOfTrimmed("yes");
    assert Lower("yes") == "yes";
  }

  lemma RecheckKeepsOtherFields(forms: RefForms, p: Payload)
    ensures var q := p[CheckedBeforeMerge := "yes"];
            && Value(q, CheckedBeforeMerge) == "yes"
            && (forall f :: f != CheckedBeforeMerge ==>
                  (Raw(q, f) == Raw(p, f) && Value(q, f) == Value(p, f)
                   && Normalized(forms, q, f) == Normalized(forms, p, f)))
  {
    hide Raw, Strip, Lower, NormalizedRef;
    var q := p[CheckedBeforeMerge := "yes"];
    LowerYes();
    forall f
      ensures Raw(q, f) == if f == CheckedBeforeMerge then Strip("yes") else Raw(p, f)
    {
      RawOfUpdated(p, CheckedBeforeMerge, "yes", f);
    }
  }

  lemma FieldsArePresent(forms: RefForms, p: Payload)
    requires ValidChoices(p) && (WhollyLocal(forms, p) || Integrated(forms, p))
    ensures forall f :: f in PR_FIELDS ==> Raw(p, f) != ""
  {
    hide Raw, Checkable, NormalizedRef;
    CheckableIsNotNone(forms, p);
    NormalizedRaw(forms, p);
    forall f | f in PR_FIELDS
      ensures Raw(p, f) != ""
    {
      if f != Reference {
        ChoicesAreNotBlank(f);
        assert Value(p, f) == Lower(Raw(p, f));
      }
    }
  }

  lemma ChoicesAreNotBlank(f: Field)
    requires f in PR_FIELDS && f != Reference
    ensures Choices(f) != {} && "" !in Choices(f)
  {
  }
}
