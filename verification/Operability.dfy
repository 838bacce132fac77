/** The operability release gate: field assertions on actual results, the cases of
    a run against the frozen matrix, and the verdict with its counts. */
module Operability {
  import opened Text
  import opened OperabilityJson
  import opened OperabilityEvidence

  // ------------------------------------------------------------------ assertions

  function GetPath(j: Json, segments: seq<string>): Json
    decreases |segments|
  {
    if segments == [] then j
    else if j.Obj? && segments[0] in j.members then GetPath(j.members[segments[0]], segments[1..])
    else Null
  }

  datatype Snapshots = Snapshots(metrics: Json, policy: Json)

  /** A value of the actual result; policy and metrics count only where they agree
      with the snapshot of the gate. */
  function Read(actual: Json, s: Snapshots, path: string): Json {
    var segments := Split(path, '.');
    if segments[0] == "policy" then ReadBoth(actual, s.policy, segments)
    else if segments[0] == "metrics" then ReadBoth(actual, s.metrics, segments)
    else GetPath(actual, segments)
  }

  function ReadBoth(actual: Json, snapshot: Json, segments: seq<string>): Json
    requires segments != []
  {
    var a := GetPath(actual, segments);
    if Same(a, GetPath(snapshot, segments[1..])) then a else Null
  }

  datatype Operator = Equal | Differs | AtLeast | OneOf | Other(text: string)

  function OperatorOf(text: string): Operator {
    if text == "==" then Equal
    else if text == "!=" then Differs
    else if text == ">=" then AtLeast
    else if text == "in" then OneOf
    else Other(text)
  }

  datatype Field = Field(path: string, operator: Operator, value: Json)

  /** A text with a dot on the right of an equality is a path itself. */
  predicate IsPath(j: Json) {
    j.Text? && '.' in j.s
  }

  function Demanded(f: Field, actual: Json, s: Snapshots): Json {
    if IsPath(f.value) then Read(actual, s, f.value.s) else f.value
  }

  /** What an assertion demands of the actual result. */
  predicate Satisfied(f: Field, actual: Json, s: Snapshots) {
    var a := Read(actual, s, f.path);
    match f.operator
    case Equal => a != Null && Demanded(f, actual, s) != Null && Same(a, Demanded(f, actual, s))
    case Differs => a != Null && !Same(a, f.value)
    case AtLeast => f.value.Num? && a.Num? && a.n >= f.value.n
    case OneOf => f.value.Arr? && exists i :: 0 <= i < |f.value.items| && Same(a, f.value.items[i])
    case Other(_) => false
  }

  // ------------------------------------------------------------ expected results

  /** How lists and mappings are printed. */
  type Printer = Json -> string

  /** Containers of one kind print alike only when they are equal, and lists and
      mappings open with their brackets. */
  ghost predicate Faithful(repr: Printer) {
    && (forall a: Json, b: Json :: ((a.Arr? && b.Arr?) || (a.Obj? && b.Obj?)) && repr(a) == repr(b) ==> a == b)
    && (forall a: Json :: a.Arr? ==> repr(a) != "" && repr(a)[0] == '[')
    && (forall a: Json :: a.Obj? ==> repr(a) != "" && repr(a)[0] == '{')
  }

  function PrintNumber(n: int): string {
    if n < 0 then "-" + Decimal(-n) else Decimal(n)
  }

  /** The text a value is compared by. */
  function Canonical(repr: Printer, j: Json): string {
    match j
    case Null => "None"
    case Bool(b) => if b then "True" else "False"
    case Num(n) => PrintNumber(n)
    case Text(s) => s
    case _ => repr(j)
  }

  datatype FieldOption = NoField | SomeField(field: Field)

  function NormalizeField(j: Json): FieldOption {
    if !j.Obj? then NoField
    else
      var path, op := NonEmpty(Get(j.members, "path")), OperatorOf(NonEmpty(Get(j.members, "operator")));
      var value := Get(j.members, "value");
      if path == "" || op == Other("") || "value" !in j.members then NoField
      else if (op == AtLeast && !value.Num?) || (op == OneOf && !value.Arr?) then NoField
      else SomeField(Field(path, op, value))
  }

  function FieldsOf(items: seq<Json>): seq<Field> {
    if items == [] then []
    else
      var n := |items| - 1;
      FieldsOf(items[..n]) + (match NormalizeField(items[n]) case NoField => [] case SomeField(f) => [f])
  }

  predicate IsExact(f: Field) {
    f.operator == Equal || f.operator == Differs || f.operator == OneOf
  }

  predicate SameAssertion(repr: Printer, f: Field, frozen: Field) {
    && f.path == frozen.path && f.operator == frozen.operator
    && Canonical(repr, f.value) == Canonical(repr, frozen.value)
  }

  /** The frozen field assertions of the mandatory cases. */
  type Matrix = map<string, seq<Field>>

  function ExpectedItems(raw: map<string, Json>): Json {
    var expected := Get(raw, "expected_result");
    if expected.Obj? then Get(expected.members, "fields") else Null
  }

  function ExpectedFields(raw: map<string, Json>): seq<Field> {
    var items := ExpectedItems(raw);
    if items.Arr? then FieldsOf(items.items) else []
  }

  predicate FrozenIncluded(g: Gate, id: string, fields: seq<Field>) {
    id in g.matrix ==>
      forall k :: 0 <= k < |g.matrix[id]| ==>
        exists i :: 0 <= i < |fields| && SameAssertion(g.repr, fields[i], g.matrix[id][k])
  }

  /** The expected result can be read completely, asserts something exactly and
      includes the frozen assertions. */
  predicate GoodExpectation(g: Gate, id: string, raw: map<string, Json>) {
    var items := ExpectedItems(raw);
    && items.Arr?
    && (forall i :: 0 <= i < |items.items| ==> NormalizeField(items.items[i]).SomeField?)
    && (exists i :: 0 <= i < |ExpectedFields(raw)| && IsExact(ExpectedFields(raw)[i]))
    && FrozenIncluded(g, id, ExpectedFields(raw))
  }

  // ----------------------------------------------------------------- one case

  /** What agrees with a snapshot as far as it goes. */
  predicate Within(a: Json, b: Json)
    decreases a
  {
    if a.Obj? && b.Obj? then forall k :: k in a.members ==> k in b.members && Within(a.members[k], b.members[k])
    else Same(a, b)
  }

  function ActualOf(raw: map<string, Json>): (actual: Json)
    ensures actual.Obj?
  {
    var a := Get(raw, "actual_result");
    if a.Obj? then a else Obj(map[])
  }

  predicate Consistent(actual: Json, s: Snapshots)
    requires actual.Obj?
  {
    var policy, metrics := Get(actual.members, "policy"), Get(actual.members, "metrics");
    && (policy.Obj? ==> Within(policy, s.policy))
    && (metrics.Obj? && s.metrics.Obj? ==>
          forall k :: k in metrics.members ==> k in s.metrics.members && Same(metrics.members[k], s.metrics.members[k]))
  }

  predicate AllSatisfied(fields: seq<Field>, actual: Json, s: Snapshots) {
    forall i :: 0 <= i < |fields| ==> Satisfied(fields[i], actual, s)
  }

  datatype Failure = Failure(code: string, caseIds: set<string>)

  /** The inputs that do not change over a run; `flat` reports on what a case is
      besides its actual result and its expected fields. */
  datatype Gate = Gate(matrix: Matrix, dimensions: set<string>, snapshots: Snapshots, revision: string,
                       artifacts: Artifacts, flat: (string, map<string, Json>) -> seq<string>, repr: Printer)

  /** A case without its actual result and its expected fields. */
  function Rest(raw: map<string, Json>): map<string, Json> {
    var rest, expected := raw - {"actual_result"}, Get(raw, "expected_result");
    if expected.Obj? then rest["expected_result" := Obj(expected.members - {"fields"})] else rest
  }

  function ActualRef(raw: map<string, Json>): string {
    NonEmpty(Get(raw, "actual_result_ref"))
  }

  function ReferenceFailures(g: Gate, id: string, raw: map<string, Json>): seq<Failure> {
    var ref := ActualRef(raw);
    if ref == "" then [Failure("missing_actual_result_ref", {id})]
    else if !IsAllowedRef(ref) then [Failure("invalid_actual_result_ref", {id})]
    else if EvidenceRevision(ref) == "" || EvidenceRevision(ref) != g.revision then
      [Failure("actual_result_ref_revision_mismatch", {id})]
    else if !Same(StoredActual(g.artifacts, ref, id), ActualOf(raw)) then
      [Failure("actual_result_ref_scope_mismatch", {id})]
    else []
  }

  /** The approved artifact that the case refers to holds its actual result, as
      evidence of the revision. */
  predicate IsBacked(g: Gate, id: string, raw: map<string, Json>) {
    var ref := ActualRef(raw);
    && ref != "" && IsAllowedRef(ref) && EvidenceRevision(ref) != "" && EvidenceRevision(ref) == g.revision
    && Same(StoredActual(g.artifacts, ref, id), ActualOf(raw))
  }

  /** All evidence of a case is about the case. */
  predicate IsEvidenced(artifacts: Artifacts, id: string, raw: map<string, Json>) {
    forall ref :: ref in Texts(Get(raw, "evidence_refs")) ==>
      LocalCase(artifacts, ref, id, "source_case").Obj? || IsUpstreamRef(ref, id)
  }

  /** What the expected result lists under one key, the actual one lists under
      another. */
  predicate Shows(raw: map<string, Json>, expectedKey: string, actualKey: string) {
    var expected := Get(raw, "expected_result");
    expected.Obj? ==>
      Texts(Get(expected.members, expectedKey)) <= RawTexts(Get(ActualOf(raw).members, actualKey))
  }

  /** The actual result shows its effects, and names no other revision. */
  predicate IsProven(g: Gate, raw: map<string, Json>) {
    && Shows(raw, "side_effects", "side_effects")
    && Shows(raw, "forbidden_mutations", "forbidden_mutations_absent")
    && NamesRevision(g, ActualOf(raw))
  }

  predicate NamesRevision(g: Gate, actual: Json) {
    Strip(g.revision) == "" || IsBoundTo(actual, Strip(g.revision))
  }

  function Problem(condition: bool, code: string, id: string): seq<Failure> {
    if condition then [] else [Failure(code, {id})]
  }

  function FlatFailures(codes: seq<string>, id: string): seq<Failure> {
    seq(|codes|, i requires 0 <= i < |codes| => Failure(codes[i], {id}))
  }

  predicate KnownVerdict(v: string) {
    v == "pass" || v == "fail"
  }

  predicate IsMandatory(raw: map<string, Json>) {
    var impact := NonEmpty(Get(raw, "gate_impact"));
    impact == "" || impact == "mandatory"
  }

  function CaseFailures(g: Gate, id: string, raw: map<string, Json>): seq<Failure> {
    FlatFailures(g.flat(id, Rest(raw)), id)
    + Problem(KnownVerdict(NonEmpty(Get(raw, "verdict"))), "invalid_case_verdict", id)
    + Problem(id in g.matrix ==> IsMandatory(raw), "mandatory_case_gate_impact_mismatch", id)
    + Problem(Get(raw, "actual_result").Obj?, "invalid_actual_result", id)
    + ReferenceFailures(g, id, raw)
    + Problem(IsEvidenced(g.artifacts, id, raw), "case_evidence_ref_scope_mismatch", id)
    + Problem(GoodExpectation(g, id, raw), "invalid_expected_result", id)
    + Problem(Consistent(ActualOf(raw), g.snapshots), "actual_result_snapshot_mismatch", id)
    + Problem(AllSatisfied(ExpectedFields(raw), ActualOf(raw), g.snapshots), "actual_result_field_mismatch", id)
    + Problem(Shows(raw, "side_effects", "side_effects"), "actual_result_side_effects_missing", id)
    + Problem(Shows(raw, "forbidden_mutations", "forbidden_mutations_absent"),
              "actual_result_forbidden_mutation_proof_missing", id)
    + Problem(NamesRevision(g, ActualOf(raw)), "actual_result_revision_mismatch", id)
  }

  /** Nothing is wrong with a case, whatever its verdict. */
  predicate SoundCase(g: Gate, id: string, raw: map<string, Json>) {
    && g.flat(id, Rest(raw)) == [] && KnownVerdict(NonEmpty(Get(raw, "verdict"))) && Get(raw, "actual_result").Obj?
    && (id in g.matrix ==> IsMandatory(raw))
    && IsBacked(g, id, raw) && IsEvidenced(g.artifacts, id, raw) && IsProven(g, raw)
    && GoodExpectation(g, id, raw) && Consistent(ActualOf(raw), g.snapshots)
    && AllSatisfied(ExpectedFields(raw), ActualOf(raw), g.snapshots)
  }

  lemma NoCaseFailures(g: Gate, id: string, raw: map<string, Json>)
    ensures CaseFailures(g, id, raw) == [] <==> SoundCase(g, id, raw)
  {
    hide GoodExpectation, Consistent, AllSatisfied, KnownVerdict, ActualOf, ExpectedFields, NonEmpty, IsMandatory;
    hide IsEvidenced, Shows, NamesRevision, ReferenceFailures, IsBacked, Rest;
    NoReferenceFailures(g, id, raw);
  }

  lemma NoReferenceFailures(g: Gate, id: string, raw: map<string, Json>)
    ensures ReferenceFailures(g, id, raw) == [] <==> IsBacked(g, id, raw)
  {
    hide ActualRef, ActualOf, IsAllowedRef, EvidenceRevision, StoredActual, Same;
  }

  // ----------------------------------------------------------------- all cases

  datatype Case = Case(id: string, verdict: string, mandatory: bool, dimension: string)

  function CaseOf(id: string, raw: map<string, Json>): Case {
    var verdict := NonEmpty(Get(raw, "verdict"));
    Case(id, if KnownVerdict(verdict) then verdict else "fail", IsMandatory(raw), NonEmpty(Get(raw, "dimension")))
  }

  datatype Scan = Scan(cases: seq<Case>, failures: seq<Failure>)

  function Ids(cases: seq<Case>): set<string> {
    set i | 0 <= i < |cases| :: cases[i].id
  }

  function IdOf(candidate: Json): string {
    if candidate.Obj? then NonEmpty(Get(candidate.members, "case_id")) else ""
  }

  function ScanOne(g: Gate, scan: Scan, candidate: Json, index: nat): Scan {
    var id := IdOf(candidate);
    if id == "" then scan.(failures := scan.failures + [Failure("invalid_case", {"invalid-case-" + Decimal(index)})])
    else if id in Ids(scan.cases) then scan.(failures := scan.failures + [Failure("duplicate_case_id", {id})])
    else
      Scan(scan.cases + [CaseOf(id, candidate.members)], scan.failures + CaseFailures(g, id, candidate.members))
  }

  function ScanAll(g: Gate, candidates: seq<Json>): Scan {
    if candidates == [] then Scan([], [])
    else ScanOne(g, ScanAll(g, candidates[..|candidates| - 1]), candidates[|candidates| - 1], |candidates| - 1)
  }

  /** Every candidate is a sound case with an identifier of its own. */
  predicate AllSound(g: Gate, candidates: seq<Json>) {
    && (forall i :: 0 <= i < |candidates| ==>
          IdOf(candidates[i]) != "" && SoundCase(g, IdOf(candidates[i]), candidates[i].members))
    && (forall i, j :: 0 <= i < j < |candidates| ==> IdOf(candidates[i]) != IdOf(candidates[j]))
  }

  predicate DistinctIds(cases: seq<Case>) {
    forall i, j :: 0 <= i < j < |cases| ==> cases[i].id != cases[j].id
  }

  lemma {:induction false} ScanKeepsIdsDistinct(g: Gate, candidates: seq<Json>)
    ensures DistinctIds(ScanAll(g, candidates).cases)
    ensures forall i :: 0 <= i < |ScanAll(g, candidates).cases| ==> KnownVerdict(ScanAll(g, candidates).cases[i].verdict)
  {
    hide CaseFailures, NonEmpty;
    if candidates != [] {
      ScanKeepsIdsDistinct(g, candidates[..|candidates| - 1]);
    }
  }

  predicate Mirrors(candidates: seq<Json>, cases: seq<Case>) {
    && |cases| == |candidates|
    && forall i :: 0 <= i < |candidates| ==>
         IdOf(candidates[i]) != "" && cases[i] == CaseOf(IdOf(candidates[i]), candidates[i].members)
  }

  /** A scan reports nothing exactly when every candidate is sound, and then the
      cases are the candidates. */
  lemma {:induction false} ScanIsSilentExactly(g: Gate, candidates: seq<Json>)
    ensures var scan := ScanAll(g, candidates);
            (scan.failures == [] <==> AllSound(g, candidates))
            && (AllSound(g, candidates) ==> Mirrors(candidates, scan.cases))
  {
    hide ScanOne, AllSound, Mirrors;
    if candidates == [] {
      NothingIsSound(g);
    } else {
      var n := |candidates| - 1;
      ScanIsSilentExactly(g, candidates[..n]);
      assert candidates == candidates[..n] + [candidates[n]];
      ScanOneIsSilentExactly(g, candidates[..n], candidates[n], ScanAll(g, candidates[..n]));
    }
  }

  lemma NothingIsSound(g: Gate)
    ensures AllSound(g, []) && Mirrors([], [])
  {
  }

  lemma ScanOneIsSilentExactly(g: Gate, before: seq<Json>, candidate: Json, scan: Scan)
    requires scan.failures == [] <==> AllSound(g, before)
    requires AllSound(g, before) ==> Mirrors(before, scan.cases)
    ensures var next, more := ScanOne(g, scan, candidate, |before|), before + [candidate];
            (next.failures == [] <==> AllSound(g, more)) && (AllSound(g, more) ==> Mirrors(more, next.cases))
  {
    hide CaseFailures, NonEmpty, SoundCase, CaseOf, AllSound, Ids, Mirrors;
    var id := IdOf(candidate);
    SoundOfMore(g, before, candidate);
    if id != "" {
      NoCaseFailures(g, id, candidate.members);
      if AllSound(g, before) {
        IdsOfCandidates(g, before, scan.cases);
        MirrorsMore(before, scan.cases, candidate);
      }
    }
  }

  lemma MirrorsMore(before: seq<Json>, cases: seq<Case>, candidate: Json)
    requires Mirrors(before, cases) && IdOf(candidate) != ""
    ensures Mirrors(before + [candidate], cases + [CaseOf(IdOf(candidate), candidate.members)])
  {
    hide NonEmpty, CaseOf;
  }

  lemma SoundOfMore(g: Gate, before: seq<Json>, candidate: Json)
    ensures AllSound(g, before + [candidate]) <==>
            && AllSound(g, before) && IdOf(candidate) != "" && SoundCase(g, IdOf(candidate), candidate.members)
            && forall i :: 0 <= i < |before| ==> IdOf(before[i]) != IdOf(candidate)
  {
    hide SoundCase, IdOf;
    var more := before + [candidate];
    assert forall i :: 0 <= i < |before| ==> more[i] == before[i];
    assert more[|before|] == candidate;
  }

  lemma IdsOfCandidates(g: Gate, candidates: seq<Json>, cases: seq<Case>)
    requires Mirrors(candidates, cases)
    ensures forall x :: x in Ids(cases) <==> exists i :: 0 <= i < |candidates| && IdOf(candidates[i]) == x
  {
    hide NonEmpty;
    forall i | 0 <= i < |cases|
      ensures cases[i].id == IdOf(candidates[i])
    {
      assert cases[i] == CaseOf(IdOf(candidates[i]), candidates[i].members);
    }
  }

  // ------------------------------------------------------------------ the verdict

  function MissingIds(matrix: Matrix, cases: seq<Case>): set<string> {
    matrix.Keys - Ids(cases)
  }

  function Dimensions(cases: seq<Case>): set<string> {
    set i | 0 <= i < |cases| :: cases[i].dimension
  }

  function CoverageFailures(g: Gate, cases: seq<Case>): seq<Failure> {
    (if MissingIds(g.matrix, cases) == {} then [] else [Failure("missing_mandatory_cases", MissingIds(g.matrix, cases))])
    + (if g.dimensions <= Dimensions(cases) then [] else [Failure("missing_mandatory_dimensions", {})])
  }

  function VerdictFailures(cases: seq<Case>): seq<Failure> {
    if cases == [] then []
    else
      var c := cases[|cases| - 1];
      VerdictFailures(cases[..|cases| - 1])
      + (if c.verdict == "fail" && c.mandatory then [Failure("mandatory_case_failed", {c.id})] else [])
  }

  /** Everything a run reports; `globals` are the reports about release, revision,
      baseline, dependencies, snapshots and evidence, which name no case. */
  function AllFailures(g: Gate, candidates: seq<Json>, globals: seq<Failure>): seq<Failure> {
    var scan := ScanAll(g, candidates);
    globals + scan.failures + CoverageFailures(g, scan.cases) + VerdictFailures(scan.cases)
  }

  function FailedIds(cases: seq<Case>, failures: seq<Failure>): set<string> {
    (set i | 0 <= i < |cases| && cases[i].verdict != "pass" :: cases[i].id)
    + (set i, id | 0 <= i < |failures| && id in failures[i].caseIds :: id)
  }

  function Marked(cases: seq<Case>, failed: set<string>): (r: seq<Case>)
    ensures |r| == |cases|
  {
    seq(|cases|, i requires 0 <= i < |cases| =>
      if cases[i].id in failed then cases[i].(verdict := "fail") else cases[i])
  }

  datatype Report = Report(cases: seq<Case>, failures: seq<Failure>, total: int, passTotal: int, failTotal: int,
                           failedIds: set<string>, passed: bool)

  /** The state of one run of the gate. */
  class OperabilityGate {
    const gate: Gate
    var failures: seq<Failure>
    var cases: seq<Case>

    constructor (gate: Gate)
      ensures this.gate == gate && failures == [] && cases == []
    {
      this.gate, failures, cases := gate, [], [];
    }

    method NormalizeCases(candidates: seq<Json>)
      requires cases == []
      modifies this
      ensures cases == ScanAll(gate, candidates).cases
      ensures failures == old(failures) + ScanAll(gate, candidates).failures
    {
      hide CaseFailures, CaseOf, IdOf;
      var seen: set<string> := {};
      for index := 0 to |candidates|
        invariant cases == ScanAll(gate, candidates[..index]).cases
        invariant failures == old(failures) + ScanAll(gate, candidates[..index]).failures
        invariant seen == Ids(cases)
      {
        assert candidates[..index + 1][..index] == candidates[..index];
        var id := IdOf(candidates[index]);
        if id == "" {
          failures := failures + [Failure("invalid_case", {"invalid-case-" + Decimal(index)})];
        } else if id in seen {
          failures := failures + [Failure("duplicate_case_id", {id})];
        } else {
          CaseHasId(candidates[index]);
          var raw := candidates[index].members;
          seen := seen + {id};
          failures := failures + CaseFailures(gate, id, raw);
          CaseOfId(id, raw);
          IdsGrow(cases, CaseOf(id, raw));
          cases := cases + [CaseOf(id, raw)];
        }
      }
      assert candidates[..|candidates|] == candidates;
    }

    method CheckVerdicts()
      modifies `failures
      ensures failures == old(failures) + VerdictFailures(cases)
    {
      for i := 0 to |cases|
        invariant failures == old(failures) + VerdictFailures(cases[..i])
      {
        assert cases[..i + 1][..i] == cases[..i];
        if cases[i].verdict == "fail" && cases[i].mandatory {
          failures := failures + [Failure("mandatory_case_failed", {cases[i].id})];
        }
      }
      assert cases[..|cases|] == cases;
    }

    /** Overwrites the verdict of every failed case. */
    method MarkFailed(failed: set<string>)
      modifies `cases
      ensures cases == Marked(old(cases), failed)
    {
      ghost var before := cases;
      for i := 0 to |cases|
        invariant |cases| == |before| && forall j :: i <= j < |cases| ==> cases[j] == before[j]
        invariant cases[..i] == Marked(before[..i], failed)
      {
        assert before[..i + 1][..i] == before[..i] && cases[i] == before[i];
        if cases[i].id in failed {
          cases := cases[i := cases[i].(verdict := "fail")];
        }
      }
      assert before[..|before|] == before;
    }

    method Orchestrate(candidates: seq<Json>, globals: seq<Failure>) returns (r: Report)
      requires cases == [] && failures == []
      modifies this
      ensures r.failures == AllFailures(gate, candidates, globals) && (r.passed <==> r.failures == [])
      ensures var scan := ScanAll(gate, candidates);
              && r.failedIds == FailedIds(scan.cases, r.failures) && r.cases == Marked(scan.cases, r.failedIds)
              && r.total == |scan.cases| + |r.failedIds - Ids(scan.cases)|
              && r.failTotal == |r.failedIds| && r.passTotal == |scan.cases| - |r.failedIds * Ids(scan.cases)|
      ensures r.passTotal >= 0 && r.passTotal + r.failTotal == r.total
      ensures forall i :: 0 <= i < |r.cases| ==> (r.cases[i].verdict == "fail" <==> r.cases[i].id in r.failedIds)
    {
      hide ScanAll, CoverageFailures, VerdictFailures, DistinctIds, FailedIds, Marked, Ids;
      NormalizeCases(candidates);
      failures := globals + failures;
      failures := failures + CoverageFailures(gate, cases);
      CheckVerdicts();
      var failed, ids := FailedIds(cases, failures), Ids(cases);
      ScanKeepsIdsDistinct(gate, candidates);
      FailedAreMarked(cases, failures);
      CountsAgree(cases, failed);
      var invalid := failed - ids;
      var passTotal := |cases| - |failed * ids|;
      MarkFailed(failed);
      r := Report(cases, failures, |cases| + |invalid|, if passTotal < 0 then 0 else passTotal, |failed|, failed,
                  failures == []);
    }
  }

  lemma CaseOfId(id: string, raw: map<string, Json>)
    ensures CaseOf(id, raw).id == id
  {
  }

  lemma CaseHasId(candidate: Json)
    requires IdOf(candidate) != ""
    ensures candidate.Obj?
  {
  }

  lemma IdsGrow(cases: seq<Case>, c: Case)
    ensures Ids(cases + [c]) == Ids(cases) + {c.id}
  {
    var more := cases + [c];
    assert forall i :: 0 <= i < |cases| ==> more[i] == cases[i];
    assert more[|cases|] == c;
  }

  lemma {:induction false} IdsAreNoMore(cases: seq<Case>)
    ensures |Ids(cases)| <= |cases|
  {
    if cases == [] {
      assert Ids(cases) == {};
    } else {
      var n := |cases| - 1;
      IdsAreNoMore(cases[..n]);
      IdsGrow(cases[..n], cases[n]);
      assert cases == cases[..n] + [cases[n]];
    }
  }

  /** Passed and failed cases add up to all of them, for every set of failed
      identifiers. */
  lemma CountsAgree(cases: seq<Case>, failed: set<string>)
    ensures |cases| - |failed * Ids(cases)| >= 0
    ensures |cases| - |failed * Ids(cases)| + |failed| == |cases| + |failed - Ids(cases)|
  {
    IdsAreNoMore(cases);
    var ids := Ids(cases);
    Smaller(failed * ids, ids);
    assert failed == (failed * ids) + (failed - ids);
    assert (failed * ids) !! (failed - ids);
  }

  lemma Smaller(a: set<string>, b: set<string>)
    requires a <= b
    ensures |a| <= |b|
  {
    assert b == a + (b - a);
  }

  /** After marking, the failed cases are exactly those in the failed set. */
  lemma FailedAreMarked(cases: seq<Case>, failures: seq<Failure>)
    requires forall i :: 0 <= i < |cases| ==> KnownVerdict(cases[i].verdict)
    ensures var failed := FailedIds(cases, failures);
            forall i :: 0 <= i < |cases| ==>
              (Marked(cases, failed)[i].verdict == "fail" <==> Marked(cases, failed)[i].id in failed)
  {
  }

  // ------------------------------------------------------------ what a pass means

  predicate Harmless(c: Case) {
    c.verdict != "fail" || !c.mandatory
  }

  lemma {:induction false} NoVerdictFailures(cases: seq<Case>)
    ensures VerdictFailures(cases) == [] <==> forall c :: c in cases ==> Harmless(c)
  {
    if cases != [] {
      var n := |cases| - 1;
      NoVerdictFailures(cases[..n]);
      assert cases == cases[..n] + [cases[n]];
      assert VerdictFailures(cases) == [] <==> VerdictFailures(cases[..n]) == [] && Harmless(cases[n]);
    }
  }

  /** The candidate that stands for a case, if there is exactly one. */
  predicate StandsAlone(candidates: seq<Json>, id: string, i: int) {
    && 0 <= i < |candidates| && IdOf(candidates[i]) == id
    && forall j :: 0 <= j < |candidates| && IdOf(candidates[j]) == id ==> j == i
  }

  /** A mandatory case in a run that passes. */
  predicate PassesCase(g: Gate, candidate: Json, id: string) {
    && candidate.Obj?
    && NonEmpty(Get(candidate.members, "verdict")) == "pass"
    && SoundCase(g, id, candidate.members)
  }

  /** A run passes exactly when nothing is reported globally, every candidate is a
      sound case of its own, no mandatory one is marked fail, all dimensions occur
      and every mandatory case has exactly one candidate, which passes. */
  lemma PassExactly(g: Gate, candidates: seq<Json>, globals: seq<Failure>)
    ensures AllFailures(g, candidates, globals) == [] <==>
            && globals == [] && AllSound(g, candidates)
            && g.dimensions <= Dimensions(ScanAll(g, candidates).cases)
            && VerdictFailures(ScanAll(g, candidates).cases) == []
            && forall id :: id in g.matrix ==>
                 exists i :: StandsAlone(candidates, id, i) && PassesCase(g, candidates[i], id)
  {
    hide AllSound, VerdictFailures, ScanAll, PassesCase, Dimensions;
    ScanIsSilentExactly(g, candidates);
    var cases := ScanAll(g, candidates).cases;
    if AllSound(g, candidates) && VerdictFailures(cases) == [] {
      EveryCaseHasItsCandidate(g, candidates);
    }
  }

  /** With sound candidates, the cases that are covered are those that have one
      passing candidate. */
  lemma EveryCaseHasItsCandidate(g: Gate, candidates: seq<Json>)
    requires AllSound(g, candidates) && VerdictFailures(ScanAll(g, candidates).cases) == []
    ensures MissingIds(g.matrix, ScanAll(g, candidates).cases) == {} <==>
            forall id :: id in g.matrix ==>
              exists i :: StandsAlone(candidates, id, i) && PassesCase(g, candidates[i], id)
  {
    hide SoundCase, NonEmpty, ScanAll, VerdictFailures, PassesCase;
    ScanIsSilentExactly(g, candidates);
    var cases := ScanAll(g, candidates).cases;
    IdsOfCandidates(g, candidates, cases);
    NoVerdictFailures(cases);
    NothingMissing(g.matrix, cases);
    forall id | id in g.matrix
      ensures id in Ids(cases) <==> exists i :: StandsAlone(candidates, id, i) && PassesCase(g, candidates[i], id)
    {
      forall i | 0 <= i < |candidates| && IdOf(candidates[i]) == id
        ensures StandsAlone(candidates, id, i) && PassesCase(g, candidates[i], id)
      {
        SoundMandatoryPasses(g, candidates, cases, i, id);
      }
    }
  }

  lemma NothingMissing(matrix: Matrix, cases: seq<Case>)
    ensures MissingIds(matrix, cases) == {} <==> forall id :: id in matrix ==> id in Ids(cases)
  {
    hide Ids;
    assert forall id :: id in MissingIds(matrix, cases) <==> id in matrix && id !in Ids(cases);
  }

  lemma SoundMandatoryPasses(g: Gate, candidates: seq<Json>, cases: seq<Case>, i: nat, id: string)
    requires AllSound(g, candidates) && i < |candidates| == |cases| && IdOf(candidates[i]) == id && id in g.matrix
    requires id != "" && cases[i] == CaseOf(id, candidates[i].members)
    requires Harmless(cases[i])
    ensures PassesCase(g, candidates[i], id)
  {
    hide GoodExpectation, Consistent, AllSatisfied, ActualOf, ExpectedFields, NonEmpty;
  }

  // ------------------------------------------------------------- frozen assertions

  /** Values of one kind print alike only when they are equal. */
  predicate SameKind(a: Json, b: Json) {
    || (a.Null? && b.Null?) || (a.Bool? && b.Bool?) || (a.Num? && b.Num?) || (a.Text? && b.Text?)
    || (a.Arr? && b.Arr?) || (a.Obj? && b.Obj?)
  }

  lemma PrintedAlikeIsEqual(repr: Printer, a: Json, b: Json)
    requires Faithful(repr) && SameKind(a, b) && Canonical(repr, a) == Canonical(repr, b)
    ensures a == b
  {
    if a.Num? && b.Num? {
      NumbersPrintedAlike(a.n, b.n);
    }
  }

  lemma PrintedSign(n: int)
    ensures PrintNumber(n) != "" && (PrintNumber(n)[0] == '-' <==> n < 0)
  {
    assert IsDigit(Decimal(if n < 0 then -n else n)[0]);
  }

  lemma NumbersPrintedAlike(m: int, n: int)
    requires PrintNumber(m) == PrintNumber(n)
    ensures m == n
  {
    hide Decimal;
    PrintedSign(m);
    PrintedSign(n);
    if m < 0 {
      assert PrintNumber(m)[1..] == Decimal(-m) && PrintNumber(n)[1..] == Decimal(-n);
      DecimalInjective(-m, -n);
    } else {
      DecimalInjective(m, n);
    }
  }

  /** Every frozen assertion of a passing case stands among the expected ones, up
      to the spelling of its value, and is satisfied as it is spelled there. */
  lemma FrozenAssertionsHold(g: Gate, candidate: Json, id: string, frozen: Field) returns (f: Field)
    requires Faithful(g.repr)
    requires PassesCase(g, candidate, id) && id in g.matrix && frozen in g.matrix[id]
    ensures SameAssertion(g.repr, f, frozen) && Satisfied(f, ActualOf(candidate.members), g.snapshots)
    ensures SameKind(f.value, frozen.value) ==> Satisfied(frozen, ActualOf(candidate.members), g.snapshots)
  {
    hide Satisfied, SameAssertion, Consistent, NonEmpty, NormalizeField, ActualOf, ExpectedFields, Faithful;
    var fields := ExpectedFields(candidate.members);
    var k :| 0 <= k < |g.matrix[id]| && g.matrix[id][k] == frozen;
    var i :| 0 <= i < |fields| && SameAssertion(g.repr, fields[i], g.matrix[id][k]);
    f := fields[i];
    if SameKind(f.value, frozen.value) {
      SameKindIsFrozen(g.repr, f, frozen);
    }
  }

  lemma SameKindIsFrozen(repr: Printer, f: Field, frozen: Field)
    requires Faithful(repr) && SameAssertion(repr, f, frozen) && SameKind(f.value, frozen.value)
    ensures f == frozen
  {
    hide Canonical, Faithful;
    PrintedAlikeIsEqual(repr, f.value, frozen.value);
  }

  lemma PrintedStart(n: int)
    ensures PrintNumber(n) != "" && (PrintNumber(n)[0] == '-' || IsDigit(PrintNumber(n)[0]))
  {
  }

  /** Values that print alike without being of one kind are a text and something
      else. */
  lemma OnlyTextsPrintLikeOthers(repr: Printer, a: Json, b: Json)
    requires Faithful(repr) && Canonical(repr, a) == Canonical(repr, b) && !SameKind(a, b)
    ensures a.Text? || b.Text?
  {
    hide PrintNumber;
    if a.Num? {
      PrintedStart(a.n);
    }
    if b.Num? {
      PrintedStart(b.n);
    }
    assert "None"[0] == 'N' && "True"[0] == 'T' && "False"[0] == 'F';
  }

  /** When an assertion that is spelled like a frozen one is satisfied, the frozen
      one is if and only if it was not spelled with a value of another kind, or
      demands a difference that the actual value shows anyway, or one of the two
      is a path to what the other demands. */
  lemma SpellingMatters(repr: Printer, f: Field, frozen: Field, actual: Json, s: Snapshots)
    requires Faithful(repr) && SameAssertion(repr, f, frozen) && Satisfied(f, actual, s)
    ensures var a := Read(actual, s, frozen.path);
            Satisfied(frozen, actual, s) <==>
            || SameKind(f.value, frozen.value)
            || (frozen.operator == Differs && !Same(a, frozen.value))
            || (frozen.operator == Equal && (IsPath(f.value) || IsPath(frozen.value))
                && Demanded(frozen, actual, s) != Null && Same(a, Demanded(frozen, actual, s)))
  {
    hide Read, PrintNumber, Faithful;
    if SameKind(f.value, frozen.value) {
      SameKindIsFrozen(repr, f, frozen);
    } else {
      OnlyTextsPrintLikeOthers(repr, f.value, frozen.value);
    }
  }

  // ------------------------------------------------------------- a passing run

  /** `error.details.retryable` must be true. */
  function FrozenTruth(): Field {
    Field(RetryablePath(), Equal, Bool(true))
  }

  function RetryablePath(): string {
    "error" + ['.'] + ("details" + ['.'] + "retryable")
  }

  /** A gate with one mandatory case, whose actual result an artifact holds. */
  function TruthGate(s: Snapshots, revision: string, path: string, repr: Printer): Gate {
    Gate(map["c" := [FrozenTruth()]], {"d"}, s, revision, SpelledArtifacts(path), (id, raw) => [], repr)
  }

  function SpelledArtifacts(path: string): Artifacts {
    map[path := Obj(map["cases" := Obj(map["c" := Obj(map["actual_result" := SpelledActual()])])])]
  }

  function SpelledRef(revision: string, path: string): string {
    "local" + [':'] + (revision + [':'] + (path + [':'] + ("c" + [':'] + "actual_result")))
  }

  /** The case with the text "True", both as expected and as actual value. */
  function SpelledExpectation(): Json {
    Obj(map["path" := Text(RetryablePath()), "operator" := Text("=="), "value" := Text("True")])
  }

  function SpelledActual(): Json {
    Obj(map["error" := Obj(map["details" := Obj(map["retryable" := Text("True")])])])
  }

  function SpelledCase(revision: string, path: string): Json {
    Obj(map["case_id" := Text("c"), "actual_result_ref" := Text(SpelledRef(revision, path)), "verdict" := Text("pass"), "dimension" := Text("d"),
            "actual_result" := SpelledActual(),
            "expected_result" := Obj(map["fields" := Arr([SpelledExpectation()])])])
  }

  lemma TrimmedText(t: string)
    requires Trimmed(t)
    ensures NonEmpty(Text(t)) == t
  {
    StripOfTrimmed(t);
  }

  lemma PathIsTrimmed()
    ensures Trimmed(RetryablePath()) && RetryablePath() != ""
  {
    var p := RetryablePath();
    assert p[0] == 'e' && p[|p| - 1] == 'e';
  }

  lemma SpelledFields() returns (f: Field)
    ensures f == Field(RetryablePath(), Equal, Text("True")) && NormalizeField(SpelledExpectation()) == SomeField(f)
    ensures FieldsOf([SpelledExpectation()]) == [f]
  {
    hide RetryablePath, Strip, Trimmed;
    f := Field(RetryablePath(), Equal, Text("True"));
    PathIsTrimmed();
    TrimmedText(RetryablePath());
    assert Trimmed("==") by { TwoCharacters("=="); }
    TrimmedText("==");
    assert [SpelledExpectation()][..0] == [];
    assert FieldsOf([]) == [];
  }

  lemma TwoCharacters(t: string)
    requires t == "=="
    ensures Trimmed(t)
  {
  }

  lemma SpelledIsSatisfied(s: Snapshots)
    ensures Satisfied(Field(RetryablePath(), Equal, Text("True")), SpelledActual(), s)
    ensures !Satisfied(FrozenTruth(), SpelledActual(), s)
  {
    hide Split, ReadBoth;
    ThreeSegments("error", "details", "retryable");
    assert "error" != "policy" && "error" != "metrics" by { assert "error"[0] == 'e'; }
    ReadThree(SpelledActual(), "error", "details", "retryable");
    assert Read(SpelledActual(), s, RetryablePath()) == Text("True");
    assert '.' !in "True";
  }

  lemma SpelledMembers(revision: string, path: string)
    ensures var m := SpelledCase(revision, path).members;
            && Get(m, "case_id") == Text("c") && Get(m, "verdict") == Text("pass") && Get(m, "dimension") == Text("d")
            && Get(m, "actual_result") == SpelledActual() && Get(m, "gate_impact") == Null
            && Get(m, "actual_result_ref") == Text(SpelledRef(revision, path)) && Get(m, "evidence_refs") == Null
            && Get(m, "expected_result") == Obj(map["fields" := Arr([SpelledExpectation()])])
  {
    hide SpelledRef, SpelledActual, SpelledExpectation;
    assert "case_id"[0] == 'c' && "verdict"[0] == 'v' && "gate_impact"[0] == 'g' && "evidence_refs"[1] == 'v';
    assert "actual_result"[0] == 'a' && "dimension"[0] == 'd' && "expected_result"[1] == 'x';
    assert |"actual_result_ref"| > |"actual_result"|;
  }

  lemma SpelledIsConsistent(s: Snapshots)
    ensures Consistent(SpelledActual(), s)
  {
    assert "policy"[0] == 'p' && "metrics"[0] == 'm' && "error"[0] == 'e';
  }

  lemma SpelledRefIsSplit(revision: string, path: string)
    requires ':' !in revision && ':' !in path
    ensures var ref := SpelledRef(revision, path);
            && Split(ref, ':') == ["local", revision, path, "c", "actual_result"]
            && NonEmpty(Text(ref)) == ref && IsAllowedRef(ref)
  {
    hide Split, UpTo, Behind, Strip;
    var ref, slot := SpelledRef(revision, path), "c" + [':'] + "actual_result";
    SplitBehind("local", revision + [':'] + (path + [':'] + slot));
    SplitBehind(revision, path + [':'] + slot);
    SplitBehind(path, slot);
    SplitBehind("c", "actual_result");
    SplitStep("actual_result", ':');
    assert ref[0] == 'l' && ref[|ref| - 1] == 't';
    TrimmedText(ref);
    assert ref[..6] == "local:" == ALLOWED_KINDS[4];
  }

  lemma SplitBehind(a: string, b: string)
    requires ':' !in a
    ensures Split(a + [':'] + b, ':') == [a] + Split(b, ':')
  {
    hide UpTo, Behind, Split;
    UpToStopsAt(a, ':', b);
    assert (a + [':'] + b)[|a|] == ':';
    SplitStep(a + [':'] + b, ':');
  }

  lemma SpelledIsBacked(s: Snapshots, revision: string, path: string, repr: Printer, raw: map<string, Json>)
    requires revision != "" && ':' !in revision && ':' !in path
    requires Get(raw, "actual_result_ref") == Text(SpelledRef(revision, path)) && ActualOf(raw) == SpelledActual()
    ensures IsBacked(TruthGate(s, revision, path, repr), "c", raw)
  {
    hide Split, SpelledRef, SpelledActual, NonEmpty, Same, IsAllowedRef, ActualOf, StoredActual;
    SpelledRefIsSplit(revision, path);
    var g, ref := TruthGate(s, revision, path, repr), SpelledRef(revision, path);
    StartsWithLocal(revision, path);
    assert "local" in REVISION_KINDS;
    assert EvidenceRevision(ref) == revision;
    SpelledIsStored(revision, path);
    SameIsReflexive(SpelledActual());
  }

  lemma SpelledIsProven(g: Gate, raw: map<string, Json>)
    requires ActualOf(raw) == SpelledActual() && Get(raw, "expected_result") == Obj(map["fields" := Arr([SpelledExpectation()])])
    ensures IsProven(g, raw)
  {
    hide SpelledExpectation, EvidenceRevision, ActualOf, Strip, SpelledActual;
    assert "fields"[3] == 'l' && "side_effects"[3] == 'e' && "forbidden_mutations"[3] == 'b';
    SpelledIsBound(Strip(g.revision));
  }

  lemma SpelledIsBound(revision: string)
    ensures IsBoundTo(SpelledActual(), revision)
  {
    hide EvidenceRevision;
    assert ':' !in "True";
    PlainTextIsUnbound("True");
    assert IsBoundTo(Text("True"), revision);
    var details := Obj(map["retryable" := Text("True")]);
    assert IsBoundTo(details, revision);
    assert IsBoundTo(Obj(map["details" := details]), revision);
  }

  lemma SpelledCasePasses(s: Snapshots, revision: string, path: string, repr: Printer)
    requires revision != "" && ':' !in revision && ':' !in path
    ensures IdOf(SpelledCase(revision, path)) == "c" && NonEmpty(Get(SpelledCase(revision, path).members, "dimension")) == "d"
    ensures PassesCase(TruthGate(s, revision, path, repr), SpelledCase(revision, path), "c")
  {
    hide SpelledActual, SpelledExpectation, RetryablePath, Consistent, Satisfied, Strip, NormalizeField, FieldsOf, SpelledRef,
         IsBacked, IsProven, GoodExpectation;
    SpelledMembers(revision, path);
    SpelledIsConsistent(s);
    SpelledIsSatisfied(s);
    var f := SpelledFields();
    var raw := SpelledCase(revision, path).members;
    LetterIsTrimmed("c");
    LetterIsTrimmed("d");
    PassIsTrimmed();
    ActualIsObject();
    assert ExpectedFields(raw) == [f];
    SpelledIsBacked(s, revision, path, repr, raw);
    SpelledIsProven(TruthGate(s, revision, path, repr), raw);
    SpelledExpectationIsGood(s, revision, path, repr, raw, f);
  }

  lemma SpelledExpectationIsGood(s: Snapshots, revision: string, path: string, repr: Printer, raw: map<string, Json>, f: Field)
    requires f == Field(RetryablePath(), Equal, Text("True")) && NormalizeField(SpelledExpectation()) == SomeField(f)
    requires ExpectedItems(raw) == Arr([SpelledExpectation()]) && ExpectedFields(raw) == [f]
    ensures GoodExpectation(TruthGate(s, revision, path, repr), "c", raw)
  {
    hide SpelledExpectation, RetryablePath, NormalizeField, ExpectedItems, ExpectedFields;
    var g := TruthGate(s, revision, path, repr);
    assert SameAssertion(repr, f, FrozenTruth());
    assert IsExact(ExpectedFields(raw)[0]);
    assert SameAssertion(g.repr, ExpectedFields(raw)[0], g.matrix["c"][0]);
  }

  lemma StartsWithLocal(revision: string, path: string)
    ensures SpelledRef(revision, path) != "" && !StartsWith(SpelledRef(revision, path), BASELINE)
  {
    assert SpelledRef(revision, path)[0] == 'l' && BASELINE[0] == 'F';
  }

  /** The artifact holds the actual result of the case. */
  lemma SpelledIsStored(revision: string, path: string)
    requires ':' !in revision && ':' !in path
    ensures StoredActual(SpelledArtifacts(path), SpelledRef(revision, path), "c") == SpelledActual()
  {
    hide Split, SpelledRef, SpelledActual;
    SpelledRefIsSplit(revision, path);
  }

  lemma ActualIsObject()
    ensures SpelledActual().Obj?
  {
  }

  lemma LetterIsTrimmed(t: string)
    requires t == "c" || t == "d"
    ensures NonEmpty(Text(t)) == t
  {
    StripOfTrimmed(t);
  }

  lemma PassIsTrimmed()
    ensures NonEmpty(Text("pass")) == "pass"
  {
    StripOfTrimmed("pass");
  }

  /** The text "True" passes for the truth value in a whole run: nothing is
      reported, and the frozen assertion of the mandatory case does not hold. */
  lemma TextPassesForTruth(s: Snapshots, revision: string, path: string, repr: Printer)
    requires revision != "" && ':' !in revision && ':' !in path
    ensures var g, candidates := TruthGate(s, revision, path, repr), [SpelledCase(revision, path)];
            && AllFailures(g, candidates, []) == []
            && FrozenTruth() in g.matrix["c"]
            && !Satisfied(FrozenTruth(), ActualOf(SpelledCase(revision, path).members), s)
  {
    hide SpelledActual, SpelledExpectation, RetryablePath, Satisfied, AllFailures, PassesCase, SoundCase, SpelledCase,
         Strip, FrozenTruth, ScanAll, NonEmpty;
    var g, candidates := TruthGate(s, revision, path, repr), [SpelledCase(revision, path)];
    SpelledCasePasses(s, revision, path, repr);
    SpelledIsSatisfied(s);
    SpelledScan(g, revision, path);
    PassIsSound(g, SpelledCase(revision, path), "c");
    assert StandsAlone(candidates, "c", 0);
    PassExactly(g, candidates, []);
    SpelledActualIsRead(revision, path);
    assert g.matrix["c"][0] == FrozenTruth();
  }

  lemma PassIsSound(g: Gate, candidate: Json, id: string)
    requires PassesCase(g, candidate, id)
    ensures SoundCase(g, id, candidate.members)
  {
    hide SoundCase, NonEmpty;
  }

  lemma SpelledActualIsRead(revision: string, path: string)
    ensures ActualOf(SpelledCase(revision, path).members) == SpelledActual()
  {
    hide SpelledExpectation;
    SpelledMembers(revision, path);
  }

  lemma SpelledScan(g: Gate, revision: string, path: string)
    requires PassesCase(g, SpelledCase(revision, path), "c") && IdOf(SpelledCase(revision, path)) == "c"
    requires NonEmpty(Get(SpelledCase(revision, path).members, "dimension")) == "d"
    ensures var cases := ScanAll(g, [SpelledCase(revision, path)]).cases;
            VerdictFailures(cases) == [] && Dimensions(cases) == {"d"}
  {
    hide NonEmpty, SoundCase, SpelledCase, CaseFailures, IsMandatory;
    assert [SpelledCase(revision, path)][..0] == [];
    var c := CaseOf("c", SpelledCase(revision, path).members);
    var cases := ScanAll(g, [SpelledCase(revision, path)]).cases;
    assert ScanAll(g, []) == Scan([], []) && Ids([]) == {};
    assert cases == [] + [c];
    assert cases[0].dimension == "d" && [c][..0] == [];
  }

  lemma ReadThree(j: Json, a: string, b: string, c: string)
    requires j.Obj? && a in j.members && j.members[a].Obj? && b in j.members[a].members
    requires j.members[a].members[b].Obj? && c in j.members[a].members[b].members
    ensures GetPath(j, [a, b, c]) == j.members[a].members[b].members[c]
  {
    assert [a, b, c][1..] == [b, c] && [b, c][1..] == [c] && [c][1..] == [];
    assert GetPath(j.members[a].members[b], [c]) == j.members[a].members[b].members[c];
    assert GetPath(j.members[a], [b, c]) == GetPath(j.members[a].members[b], [c]);
  }

  lemma ThreeSegments(a: string, b: string, c: string)
    requires '.' !in a && '.' !in b && '.' !in c
    ensures Split(a + ['.'] + (b + ['.'] + c), '.') == [a, b, c]
  {
    hide UpTo, Behind, Split;
    var t := b + ['.'] + c;
    UpToStopsAt(a, '.', t);
    UpToStopsAt(b, '.', c);
    assert (a + ['.'] + t)[|a|] == '.' && t[|b|] == '.';
    SplitStep(a + ['.'] + t, '.');
    SplitStep(t, '.');
    SplitStep(c, '.');
  }
}
