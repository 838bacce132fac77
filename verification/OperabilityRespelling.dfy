/** A frozen case of the release gate, in any passing run: respelled with a text in
    the place of its truth value, in the run and in the artifact it refers to, the
    run still passes. */
module OperabilityRespelling {
  import opened Text
  import opened OperabilityJson
  import opened OperabilityEvidence
  import opened Operability

  // ---------------------------------------------------------------- other cases

  /** Two gates that demand the same cases. */
  predicate SameDemands(g: Gate, after: Gate) {
    after.matrix == g.matrix && after.dimensions == g.dimensions
  }

  predicate SoundCandidate(g: Gate, candidate: Json) {
    candidate.Obj? && SoundCase(g, IdOf(candidate), candidate.members)
  }

  lemma SoundCandidates(g: Gate, candidates: seq<Json>)
    requires AllSound(g, candidates)
    ensures forall j :: 0 <= j < |candidates| ==> SoundCandidate(g, candidates[j])
  {
    hide SoundCase, NonEmpty;
  }

  /** When a candidate of a passing run is replaced by one with the same identifier,
      verdict, impact and dimension, perhaps under a gate with other inputs where the
      other candidates are sound, the run goes on passing if and only if the new one
      is sound. */
  lemma ReplacedRunPasses(g: Gate, after: Gate, candidates: seq<Json>, globals: seq<Failure>, i: nat, candidate: Json)
    requires AllFailures(g, candidates, globals) == [] && i < |candidates| && SameDemands(g, after)
    requires candidate.Obj? && candidates[i].Obj? && IdOf(candidate) == IdOf(candidates[i])
    requires forall j :: 0 <= j < |candidates| && j != i ==> SoundCandidate(after, candidates[j])
    requires CaseOf(IdOf(candidate), candidate.members) == CaseOf(IdOf(candidate), candidates[i].members)
    requires NonEmpty(Get(candidate.members, "verdict")) == NonEmpty(Get(candidates[i].members, "verdict"))
    ensures AllFailures(after, candidates[i := candidate], globals) == [] <==> SoundCandidate(after, candidate)
  {
    hide SoundCase, NonEmpty, AllFailures, ScanAll, CaseOf, PassesCase, VerdictFailures, Dimensions;
    var replaced := candidates[i := candidate];
    PassExactly(g, candidates, globals);
    PassExactly(after, replaced, globals);
    assert replaced[i] == candidate;
    if SoundCandidate(after, candidate) {
      ScanIsSilentExactly(g, candidates);
      ScanIsSilentExactly(after, replaced);
      assert AllSound(after, replaced);
      assert ScanAll(after, replaced).cases == ScanAll(g, candidates).cases;
      forall id | id in g.matrix
        ensures exists k :: StandsAlone(replaced, id, k) && PassesCase(after, replaced[k], id)
      {
        var k :| StandsAlone(candidates, id, k) && PassesCase(g, candidates[k], id);
        assert StandsAlone(replaced, id, k);
        PassCarriesOver(g, after, candidates[k], replaced[k], id);
      }
    }
  }

  lemma PassCarriesOver(g: Gate, after: Gate, a: Json, b: Json, id: string)
    requires PassesCase(g, a, id) && b.Obj? && SoundCase(after, id, b.members)
    requires NonEmpty(Get(b.members, "verdict")) == NonEmpty(Get(a.members, "verdict"))
    ensures PassesCase(after, b, id)
  {
    hide SoundCase, NonEmpty;
  }

  // ------------------------------------------------------------- the frozen case

  const RETRYABLE_CASE := "trc-retryable-platform-budget-closed"

  function CategoryPath(): string { "error" + ['.'] + "category" }

  function BudgetPath(): string { "policy" + ['.'] + ("retry" + ['.'] + "max_attempts") }

  function AttemptsPath(): string { "retry" + ['.'] + "attempts" }

  const SAFETY_PATH := "idempotency_safety_gate"

  /** The frozen assertions of the case, with a given spelling of the truth value. */
  function Retryable(truth: Json): seq<Field> {
    [Field(CategoryPath(), Equal, Text("platform")),
     Field(RetryablePath(), Equal, truth),
     Field(BudgetPath(), Equal, Num(1)),
     Field(SAFETY_PATH, Equal, Text("pass")),
     Field(AttemptsPath(), Equal, Num(0))]
  }

  function Assertion(f: Field): Json {
    Obj(map["path" := Text(f.path), "operator" := Text("=="), "value" := f.value])
  }

  function Written(fs: seq<Field>): seq<Json> {
    seq(|fs|, i requires 0 <= i < |fs| => Assertion(fs[i]))
  }

  function ErrorOf(truth: Json): Json {
    Obj(map["category" := Text("platform"), "details" := Obj(map["retryable" := truth])])
  }

  /** An actual result with the values that the case asserts, and the rest as it is. */
  function RetryableActual(actual: map<string, Json>, truth: Json): map<string, Json> {
    actual["error" := ErrorOf(truth)]
          ["policy" := Obj(map["retry" := Obj(map["max_attempts" := Num(1)])])]
          ["retry" := Obj(map["attempts" := Num(0)])]
          [SAFETY_PATH := Text("pass")]
  }

  /** The case with the text in the place of the truth value, where it is expected
      and where it is found; nothing else that a check looks at changes. */
  function Respelled(raw: map<string, Json>): map<string, Json>
    requires Get(raw, "expected_result").Obj? && Get(raw, "actual_result").Obj?
  {
    var expected, actual := Get(raw, "expected_result").members, Get(raw, "actual_result").members;
    raw["actual_result" := Obj(RetryableActual(actual, Text("True")))]
       ["expected_result" := Obj(expected["fields" := Arr(Written(Retryable(Text("True"))))])]
  }

  /** The snapshot of the policy freezes one attempt. */
  predicate OneAttempt(s: Snapshots) {
    Same(GetPath(s.policy, ["retry", "max_attempts"]), Num(1))
  }

  // ---------------------------------------------------------------- its spelling

  predicate Writable(f: Field) {
    f.operator == Equal && f.path != "" && Trimmed(f.path)
  }

  lemma AssertionIsRead(f: Field)
    requires Writable(f)
    ensures NormalizeField(Assertion(f)) == SomeField(f)
  {
    hide Trimmed, Strip;
    TrimmedText(f.path);
    TwoCharacters("==");
    TrimmedText("==");
  }

  lemma {:induction false} WrittenIsRead(fs: seq<Field>)
    requires forall i :: 0 <= i < |fs| ==> Writable(fs[i])
    ensures FieldsOf(Written(fs)) == fs
  {
    hide NormalizeField, Writable, Assertion;
    if fs != [] {
      var n := |fs| - 1;
      WrittenIsRead(fs[..n]);
      AssertionIsRead(fs[n]);
      assert Written(fs)[..n] == Written(fs[..n]);
      assert fs == fs[..n] + [fs[n]];
    }
  }

  lemma JoinedPathIsTrimmed(a: string, b: string)
    requires a != "" && b != "" && Trimmed(a) && Trimmed(b)
    ensures a + ['.'] + b != "" && Trimmed(a + ['.'] + b)
  {
    var p := a + ['.'] + b;
    assert p[0] == a[0] && p[|p| - 1] == b[|b| - 1];
  }

  lemma WordIsTrimmed(s: string)
    requires s in {"error", "category", "details", "retryable", "policy", "retry", "max_attempts", "attempts", SAFETY_PATH}
    ensures s != "" && Trimmed(s) && '.' !in s
  {
  }

  lemma RetryableIsWritable(truth: Json)
    ensures forall i :: 0 <= i < |Retryable(truth)| ==> Writable(Retryable(truth)[i])
  {
    hide Trimmed;
    WordIsTrimmed("error");
    WordIsTrimmed("category");
    WordIsTrimmed("details");
    WordIsTrimmed("retryable");
    WordIsTrimmed("policy");
    WordIsTrimmed("retry");
    WordIsTrimmed("max_attempts");
    WordIsTrimmed("attempts");
    WordIsTrimmed(SAFETY_PATH);
    JoinedPathIsTrimmed("error", "category");
    JoinedPathIsTrimmed("details", "retryable");
    JoinedPathIsTrimmed("error", "details" + ['.'] + "retryable");
    JoinedPathIsTrimmed("retry", "max_attempts");
    JoinedPathIsTrimmed("policy", "retry" + ['.'] + "max_attempts");
    JoinedPathIsTrimmed("retry", "attempts");
  }

  lemma SpelledLikeFrozen(repr: Printer)
    ensures forall i :: 0 <= i < 5 ==> SameAssertion(repr, Retryable(Text("True"))[i], Retryable(Bool(true))[i])
  {
    hide CategoryPath, RetryablePath, BudgetPath, AttemptsPath;
  }

  // -------------------------------------------------------------- what it reads

  lemma TwoSegments(a: string, b: string)
    requires '.' !in a && '.' !in b
    ensures Split(a + ['.'] + b, '.') == [a, b]
  {
    hide UpTo, Behind, Split;
    UpToStopsAt(a, '.', b);
    assert (a + ['.'] + b)[|a|] == '.';
    SplitStep(a + ['.'] + b, '.');
    SplitStep(b, '.');
  }

  lemma ReadTwo(j: Json, a: string, b: string)
    requires j.Obj? && a in j.members && j.members[a].Obj? && b in j.members[a].members
    ensures GetPath(j, [a, b]) == j.members[a].members[b]
  {
    assert [a, b][1..] == [b] && [b][1..] == [];
    assert GetPath(j.members[a], [b]) == j.members[a].members[b];
  }

  lemma ReadOne(j: Json, a: string)
    requires j.Obj? && a in j.members
    ensures GetPath(j, [a]) == j.members[a]
  {
    assert [a][1..] == [];
  }

  lemma Keys()
    ensures "error" !in {"policy", "retry", SAFETY_PATH, "metrics"} && "retry" !in {"policy", SAFETY_PATH, "metrics"}
    ensures SAFETY_PATH !in {"policy", "metrics"} && "policy" != "metrics" && "category" != "details"
    ensures "side_effects" !in {"error", "policy", "retry", SAFETY_PATH}
    ensures "forbidden_mutations_absent" !in {"error", "policy", "retry", SAFETY_PATH}
  {
    assert "side_effects"[0] == 's' && "forbidden_mutations_absent"[0] == 'f';
    assert "error"[0] == 'e' && "policy"[0] == 'p' && "retry"[0] == 'r' && SAFETY_PATH[0] == 'i' && "metrics"[0] == 'm';
  }

  lemma MembersOfActual(actual: map<string, Json>, truth: Json)
    ensures var m := RetryableActual(actual, truth);
            && m.Keys == actual.Keys + {"error", "policy", "retry", SAFETY_PATH}
            && m["error"] == ErrorOf(truth) && m["policy"] == Obj(map["retry" := Obj(map["max_attempts" := Num(1)])])
            && m["retry"] == Obj(map["attempts" := Num(0)]) && m[SAFETY_PATH] == Text("pass")
            && Get(m, "metrics") == Get(actual, "metrics") && Get(m, "side_effects") == Get(actual, "side_effects")
            && Get(m, "forbidden_mutations_absent") == Get(actual, "forbidden_mutations_absent")
            && forall k :: k in actual && k !in {"error", "policy", "retry", SAFETY_PATH} ==> m[k] == actual[k]
  {
    Keys();
  }

  lemma ErrorIsRead(actual: map<string, Json>, truth: Json, s: Snapshots)
    ensures var a := Obj(RetryableActual(actual, truth));
            Read(a, s, CategoryPath()) == Text("platform") && Read(a, s, RetryablePath()) == truth
  {
    hide Split, ReadBoth, RetryableActual;
    Keys();
    MembersOfActual(actual, truth);
    WordIsTrimmed("error");
    WordIsTrimmed("category");
    WordIsTrimmed("details");
    WordIsTrimmed("retryable");
    var a := Obj(RetryableActual(actual, truth));
    TwoSegments("error", "category");
    ThreeSegments("error", "details", "retryable");
    ReadTwo(a, "error", "category");
    ReadThree(a, "error", "details", "retryable");
  }

  lemma RestIsRead(actual: map<string, Json>, truth: Json, s: Snapshots)
    requires OneAttempt(s)
    ensures var a := Obj(RetryableActual(actual, truth));
            && Read(a, s, BudgetPath()) == Num(1) && Read(a, s, SAFETY_PATH) == Text("pass")
            && Read(a, s, AttemptsPath()) == Num(0)
  {
    hide Split, RetryableActual;
    Keys();
    MembersOfActual(actual, truth);
    WordIsTrimmed("policy");
    WordIsTrimmed("retry");
    WordIsTrimmed("max_attempts");
    WordIsTrimmed("attempts");
    WordIsTrimmed(SAFETY_PATH);
    var a := Obj(RetryableActual(actual, truth));
    ThreeSegments("policy", "retry", "max_attempts");
    assert ["policy", "retry", "max_attempts"][1..] == ["retry", "max_attempts"];
    ReadThree(a, "policy", "retry", "max_attempts");
    TwoSegments("retry", "attempts");
    ReadTwo(a, "retry", "attempts");
    SplitStep(SAFETY_PATH, '.');
    ReadOne(a, SAFETY_PATH);
  }

  lemma RetryableIsSatisfied(actual: map<string, Json>, truth: Json, s: Snapshots)
    requires OneAttempt(s) && truth in {Text("True"), Bool(true)}
    ensures AllSatisfied(Retryable(truth), Obj(RetryableActual(actual, truth)), s)
  {
    hide Read, CategoryPath, RetryablePath, BudgetPath, AttemptsPath, RetryableActual;
    ErrorIsRead(actual, truth, s);
    RestIsRead(actual, truth, s);
    assert '.' !in "True" && '.' !in "platform" && '.' !in "pass";
  }

  lemma RetryableIsConsistent(actual: map<string, Json>, truth: Json, s: Snapshots)
    requires OneAttempt(s) && Consistent(Obj(actual), s)
    ensures Consistent(Obj(RetryableActual(actual, truth)), s)
  {
    hide RetryableActual;
    MembersOfActual(actual, truth);
    assert ["retry", "max_attempts"][1..] == ["max_attempts"] && ["max_attempts"][1..] == [];
    var inner := s.policy.members["retry"];
    assert GetPath(s.policy, ["retry", "max_attempts"]) == GetPath(inner, ["max_attempts"]);
    assert inner.Obj? && "max_attempts" in inner.members;
    assert GetPath(inner, ["max_attempts"]) == GetPath(inner.members["max_attempts"], []) == inner.members["max_attempts"];
    assert Within(Num(1), inner.members["max_attempts"]);
    assert Within(Obj(map["max_attempts" := Num(1)]), inner);
  }

  // --------------------------------------------------------------- a passing run

  lemma RespelledMembers(raw: map<string, Json>)
    requires Get(raw, "expected_result").Obj? && Get(raw, "actual_result").Obj?
    ensures var r := Respelled(raw);
            && ActualOf(r) == Obj(RetryableActual(Get(raw, "actual_result").members, Text("True")))
            && Get(r, "actual_result") == ActualOf(r)
            && ExpectedItems(r) == Arr(Written(Retryable(Text("True"))))
            && forall k :: k != "actual_result" && k != "expected_result" ==> Get(r, k) == Get(raw, k)
  {
    hide RetryableActual, Written, Retryable;
    assert "actual_result"[0] == 'a' && "expected_result"[0] == 'e';
  }

  lemma RespelledIsGood(g: Gate, raw: map<string, Json>)
    requires Get(raw, "expected_result").Obj? && Get(raw, "actual_result").Obj?
    requires RETRYABLE_CASE in g.matrix && g.matrix[RETRYABLE_CASE] == Retryable(Bool(true))
    ensures ExpectedFields(Respelled(raw)) == Retryable(Text("True"))
    ensures GoodExpectation(g, RETRYABLE_CASE, Respelled(raw))
  {
    hide RetryableActual, Retryable, Respelled, ExpectedItems, NormalizeField, Assertion, Writable, SameAssertion;
    var fields := Retryable(Text("True"));
    RespelledMembers(raw);
    RetryableIsWritable(Text("True"));
    WrittenIsRead(fields);
    forall i | 0 <= i < |fields|
      ensures NormalizeField(Written(fields)[i]) == SomeField(fields[i])
    {
      AssertionIsRead(fields[i]);
    }
    RetryableFields(Text("True"));
    RetryableFields(Bool(true));
    SpelledLikeFrozen(g.repr);
    assert IsExact(fields[0]);
  }

  lemma RetryableFields(truth: Json)
    ensures |Retryable(truth)| == 5 && Retryable(truth)[0].operator == Equal
  {
  }

  lemma RespelledRest(raw: map<string, Json>)
    requires Get(raw, "expected_result").Obj? && Get(raw, "actual_result").Obj?
    ensures Rest(Respelled(raw)) == Rest(raw)
    ensures forall key :: key != "fields" ==>
              Get(Get(Respelled(raw), "expected_result").members, key) == Get(Get(raw, "expected_result").members, key)
    ensures Get(Respelled(raw), "expected_result").Obj?
  {
    hide RetryableActual, Written, Retryable;
    assert "actual_result"[0] == 'a' && "expected_result"[0] == 'e';
    var fields := Arr(Written(Retryable(Text("True"))));
    var expected := Get(raw, "expected_result").members;
    assert expected["fields" := fields] - {"fields"} == expected - {"fields"};
    assert Rest(Respelled(raw)) == Rest(raw);
  }

  lemma ErrorIsBound(revision: string)
    ensures IsBoundTo(ErrorOf(Text("True")), revision)
  {
    hide EvidenceRevision;
    assert ':' !in "True" && ':' !in "platform";
    PlainTextIsUnbound("True");
    PlainTextIsUnbound("platform");
    var details := Obj(map["retryable" := Text("True")]);
    assert IsBoundTo(details, revision);
  }

  /** The values that are put in name no revision. */
  lemma RetryableIsBound(actual: map<string, Json>, revision: string)
    requires IsBoundTo(Obj(actual), revision)
    ensures IsBoundTo(Obj(RetryableActual(actual, Text("True"))), revision)
  {
    hide RetryableActual, EvidenceRevision, ErrorOf;
    MembersOfActual(actual, Text("True"));
    assert ':' !in "pass";
    PlainTextIsUnbound("pass");
    ErrorIsBound(revision);
    var retry := Obj(map["max_attempts" := Num(1)]);
    assert IsBoundTo(retry, revision);
    assert IsBoundTo(Obj(map["retry" := retry]), revision);
    assert IsBoundTo(Obj(map["attempts" := Num(0)]), revision);
    var m := RetryableActual(actual, Text("True"));
    forall k | k in m
      ensures IsBoundTo(m[k], revision)
    {
      if k !in {"error", "policy", "retry", SAFETY_PATH} {
        assert m[k] == actual[k];
      }
    }
  }

  lemma RespelledIsProven(g: Gate, raw: map<string, Json>)
    requires Get(raw, "expected_result").Obj? && Get(raw, "actual_result").Obj?
    requires IsProven(g, raw)
    ensures IsProven(g, Respelled(raw))
  {
    hide RetryableActual, Respelled, IsBoundTo, Strip, Texts, RawTexts, Written, Retryable;
    RespelledMembers(raw);
    RespelledRest(raw);
    var actual := Get(raw, "actual_result").members;
    MembersOfActual(actual, Text("True"));
    assert "fields"[3] == 'l' && "side_effects"[3] == 'e' && "forbidden_mutations"[3] == 'b';
    if IsBoundTo(Obj(actual), Strip(g.revision)) {
      RetryableIsBound(actual, Strip(g.revision));
    }
  }

  /** Gates that differ in their artifacts only. */
  ghost predicate OtherArtifacts(g: Gate, after: Gate) {
    after.(artifacts := g.artifacts) == g
  }

  /** Respelled, the case is sound if and only if its artifact holds the respelled
      actual result. */
  lemma RespelledIsSound(g: Gate, after: Gate, raw: map<string, Json>)
    requires SoundCase(g, RETRYABLE_CASE, raw) && OneAttempt(g.snapshots) && OtherArtifacts(g, after)
    requires Get(raw, "expected_result").Obj? && IsEvidenced(after.artifacts, RETRYABLE_CASE, raw)
    requires RETRYABLE_CASE in g.matrix && g.matrix[RETRYABLE_CASE] == Retryable(Bool(true))
    ensures SoundCase(after, RETRYABLE_CASE, Respelled(raw)) <==>
            Same(StoredActual(after.artifacts, ActualRef(raw), RETRYABLE_CASE), ActualOf(Respelled(raw)))
  {
    hide GoodExpectation, Consistent, AllSatisfied, ExpectedFields, NonEmpty, Respelled, RetryableActual, Retryable, OneAttempt;
    hide IsProven, Same, IsAllowedRef, EvidenceRevision, StoredActual, Rest, LocalCase, IsUpstreamRef;
    var actual := Get(raw, "actual_result").members;
    RespelledMembers(raw);
    RespelledRest(raw);
    RespelledIsGood(after, raw);
    RetryableIsSatisfied(actual, Text("True"), g.snapshots);
    RetryableIsConsistent(actual, Text("True"), g.snapshots);
    ProvenAnyway(g, after, raw);
    RespelledIsProven(after, raw);
    assert "verdict"[0] == 'v' && "gate_impact"[0] == 'g' && "evidence_refs"[1] == 'v' && "expected_result"[1] == 'x';
    assert |"actual_result_ref"| > |"actual_result"| && "actual_result_ref"[0] == 'a';
  }

  lemma SoundHasExpectation(g: Gate, id: string, raw: map<string, Json>)
    requires SoundCase(g, id, raw)
    ensures Get(raw, "expected_result").Obj? && Get(raw, "actual_result").Obj?
  {
    hide Consistent, AllSatisfied, NonEmpty, FieldsOf;
  }

  lemma SameCase(raw: map<string, Json>)
    requires Get(raw, "expected_result").Obj? && Get(raw, "actual_result").Obj?
    ensures CaseOf(RETRYABLE_CASE, Respelled(raw)) == CaseOf(RETRYABLE_CASE, raw)
    ensures NonEmpty(Get(Respelled(raw), "verdict")) == NonEmpty(Get(raw, "verdict"))
    ensures IdOf(Obj(Respelled(raw))) == IdOf(Obj(raw))
  {
    hide Respelled, NonEmpty;
    RespelledMembers(raw);
    assert "verdict"[0] == 'v' && "gate_impact"[0] == 'g' && "dimension"[0] == 'd' && "case_id"[0] == 'c';
  }

  /** The gate with the artifact of a case rewritten to another actual result. */
  function Restored(g: Gate, raw: map<string, Json>, actual: Json): Gate {
    g.(artifacts := Rewritten(g.artifacts, ActualRef(raw), RETRYABLE_CASE, actual))
  }

  /** A sound case has a mapping as its actual result in its artifact. */
  lemma SoundIsStored(g: Gate, raw: map<string, Json>)
    requires SoundCase(g, RETRYABLE_CASE, raw)
    ensures LocalCase(g.artifacts, ActualRef(raw), RETRYABLE_CASE, "actual_result").Obj?
  {
    hide GoodExpectation, Consistent, AllSatisfied, NonEmpty, IsProven, LocalCase, IsAllowedRef, EvidenceRevision, IsEvidenced;
    hide ActualOf;
  }

  /** Other cases do not notice the rewriting. */
  lemma OthersStaySound(g: Gate, raw: map<string, Json>, actual: Json, id: string, other: map<string, Json>)
    requires SoundCase(g, RETRYABLE_CASE, raw) && SoundCase(g, id, other)
    ensures IsEvidenced(Restored(g, raw, actual).artifacts, id, other)
    ensures id != RETRYABLE_CASE ==> SoundCase(Restored(g, raw, actual), id, other)
  {
    hide GoodExpectation, Consistent, AllSatisfied, NonEmpty, IsProven, LocalCase, StoredActual, Rewritten, IsAllowedRef,
         EvidenceRevision, IsUpstreamRef, Same, ActualOf;
    SoundIsStored(g, raw);
    RewrittenIsStored(g.artifacts, ActualRef(raw), RETRYABLE_CASE, actual);
    ProvenAnyway(g, Restored(g, raw, actual), other);
    GoodAnyway(g, Restored(g, raw, actual), id, other);
  }

  lemma ProvenAnyway(g: Gate, after: Gate, raw: map<string, Json>)
    requires OtherArtifacts(g, after)
    ensures IsProven(g, raw) <==> IsProven(after, raw)
  {
    hide Shows, IsBoundTo, ActualOf, Strip;
  }

  lemma GoodAnyway(g: Gate, after: Gate, id: string, raw: map<string, Json>)
    requires OtherArtifacts(g, after)
    ensures GoodExpectation(g, id, raw) <==> GoodExpectation(after, id, raw)
  {
    hide ExpectedFields, ExpectedItems, NormalizeField, SameAssertion;
  }

  /** The parts of a passing run with the frozen case that the results below use. */
  lemma FrozenCase(g: Gate, candidates: seq<Json>, globals: seq<Failure>, i: nat)
    requires AllFailures(g, candidates, globals) == [] && i < |candidates| && IdOf(candidates[i]) == RETRYABLE_CASE
    ensures forall j :: 0 <= j < |candidates| ==> SoundCandidate(g, candidates[j])
    ensures forall j :: 0 <= j < |candidates| && j != i ==> IdOf(candidates[j]) != RETRYABLE_CASE
    ensures candidates[i].Obj?
    ensures Get(candidates[i].members, "expected_result").Obj? && Get(candidates[i].members, "actual_result").Obj?
  {
    hide AllFailures, SoundCase, NonEmpty, VerdictFailures, ScanAll, Dimensions;
    PassExactly(g, candidates, globals);
    SoundCandidates(g, candidates);
    SoundHasExpectation(g, RETRYABLE_CASE, candidates[i].members);
  }

  /** Every passing run that has the frozen case can be respelled together with the
      artifact the case refers to: the run passes as before, and the frozen
      assertion about the truth value does not hold any more. */
  lemma RespelledRunPasses(g: Gate, candidates: seq<Json>, globals: seq<Failure>, i: nat)
    requires AllFailures(g, candidates, globals) == [] && i < |candidates| && IdOf(candidates[i]) == RETRYABLE_CASE
    requires RETRYABLE_CASE in g.matrix && g.matrix[RETRYABLE_CASE] == Retryable(Bool(true))
    requires OneAttempt(g.snapshots)
    ensures Get(candidates[i].members, "expected_result").Obj? && Get(candidates[i].members, "actual_result").Obj?
    ensures var raw := candidates[i].members;
            var respelled := Respelled(raw);
            && AllFailures(Restored(g, raw, ActualOf(respelled)), candidates[i := Obj(respelled)], globals) == []
            && FrozenTruth() in g.matrix[RETRYABLE_CASE]
            && !Satisfied(FrozenTruth(), ActualOf(respelled), g.snapshots)
  {
    hide AllFailures, SoundCase, Respelled, CaseOf, NonEmpty, OneAttempt, Retryable, StoredActual, LocalCase, Rewritten, Same;
    hide ActualRef, Satisfied;
    FrozenCase(g, candidates, globals, i);
    var raw := candidates[i].members;
    var actual := ActualOf(Respelled(raw));
    var after := Restored(g, raw, actual);
    SoundIsStored(g, raw);
    RewrittenIsStored(g.artifacts, ActualRef(raw), RETRYABLE_CASE, actual);
    SameIsReflexive(actual);
    forall j | 0 <= j < |candidates|
      ensures IsEvidenced(after.artifacts, IdOf(candidates[j]), candidates[j].members)
      ensures j != i ==> SoundCandidate(after, candidates[j])
    {
      assert SoundCandidate(g, candidates[j]);
      OthersStaySound(g, raw, actual, IdOf(candidates[j]), candidates[j].members);
    }
    RespelledIsSound(g, after, raw);
    SameCase(raw);
    assert candidates[i] == Obj(raw);
    ReplacedRunPasses(g, after, candidates, globals, i, Obj(Respelled(raw)));
    TruthIsFrozen();
    RespelledTruthFails(raw, g.snapshots);
  }

  lemma {:induction false} SamePath(a: Json, b: Json, segments: seq<string>)
    requires Same(a, b)
    ensures Same(GetPath(a, segments), GetPath(b, segments))
    decreases |segments|
  {
    if segments != [] && a.Obj? && segments[0] in a.members {
      SamePath(a.members[segments[0]], b.members[segments[0]], segments[1..]);
    }
  }

  /** A value that shows the truth value is no respelled one. */
  lemma TruthIsNotRespelled(a: Json, raw: map<string, Json>, s: Snapshots)
    requires Get(raw, "expected_result").Obj? && Get(raw, "actual_result").Obj?
    requires Satisfied(FrozenTruth(), a, s)
    ensures !Same(a, ActualOf(Respelled(raw)))
  {
    hide RetryableActual, Respelled, ActualOf, Split;
    var b := ActualOf(Respelled(raw));
    RespelledMembers(raw);
    ErrorIsRead(Get(raw, "actual_result").members, Text("True"), s);
    WordIsTrimmed("error");
    WordIsTrimmed("details");
    WordIsTrimmed("retryable");
    ThreeSegments("error", "details", "retryable");
    Keys();
    assert "error" != "policy" && "error" != "metrics";
    var segments := ["error", "details", "retryable"];
    assert GetPath(b, segments) == Text("True");
    if Same(a, b) {
      SamePath(a, b, segments);
      assert false;
    }
  }

  /** Respelled in the run alone, the case is noticed if and only if the respelled
      actual result is another value than before; so it is whenever the frozen
      assertion about the truth value held. */
  lemma RespellingAloneIsNoticed(g: Gate, candidates: seq<Json>, globals: seq<Failure>, i: nat)
    requires AllFailures(g, candidates, globals) == [] && i < |candidates| && IdOf(candidates[i]) == RETRYABLE_CASE
    requires RETRYABLE_CASE in g.matrix && g.matrix[RETRYABLE_CASE] == Retryable(Bool(true))
    requires OneAttempt(g.snapshots)
    ensures Get(candidates[i].members, "expected_result").Obj? && Get(candidates[i].members, "actual_result").Obj?
    ensures var raw := candidates[i].members;
            AllFailures(g, candidates[i := Obj(Respelled(raw))], globals) != [] <==>
            !Same(ActualOf(raw), ActualOf(Respelled(raw)))
    ensures var raw := candidates[i].members;
            Satisfied(FrozenTruth(), ActualOf(raw), g.snapshots) ==>
              AllFailures(g, candidates[i := Obj(Respelled(raw))], globals) != []
  {
    hide Satisfied, AllFailures, SoundCase, Respelled, CaseOf, NonEmpty, OneAttempt, Retryable, StoredActual, Same, ActualRef, ActualOf,
         IsEvidenced;
    FrozenCase(g, candidates, globals, i);
    var raw := candidates[i].members;
    SoundIsBacked(g, raw);
    RespelledIsSound(g, g, raw);
    SameCase(raw);
    assert candidates[i] == Obj(raw);
    ReplacedRunPasses(g, g, candidates, globals, i, Obj(Respelled(raw)));
    var stored := StoredActual(g.artifacts, ActualRef(raw), RETRYABLE_CASE);
    SameIsSymmetric(stored, ActualOf(raw));
    if Same(ActualOf(raw), ActualOf(Respelled(raw))) {
      SameThird(ActualOf(raw), stored, ActualOf(Respelled(raw)));
    }
    if Satisfied(FrozenTruth(), ActualOf(raw), g.snapshots) {
      TruthIsNotRespelled(ActualOf(raw), raw, g.snapshots);
    }
    if !Same(ActualOf(raw), ActualOf(Respelled(raw))) && Same(stored, ActualOf(Respelled(raw))) {
      SameThird(stored, ActualOf(raw), ActualOf(Respelled(raw)));
      assert false;
    }
  }

  lemma SoundIsBacked(g: Gate, raw: map<string, Json>)
    requires SoundCase(g, RETRYABLE_CASE, raw)
    ensures Same(StoredActual(g.artifacts, ActualRef(raw), RETRYABLE_CASE), ActualOf(raw))
    ensures IsEvidenced(g.artifacts, RETRYABLE_CASE, raw)
  {
    hide GoodExpectation, Consistent, AllSatisfied, NonEmpty, IsProven, IsAllowedRef, EvidenceRevision, IsEvidenced, Same,
         StoredActual, ActualOf;
  }

  lemma TruthIsFrozen()
    ensures FrozenTruth() in Retryable(Bool(true))
  {
    assert Retryable(Bool(true))[1] == FrozenTruth();
  }

  lemma RespelledTruthFails(raw: map<string, Json>, s: Snapshots)
    requires Get(raw, "expected_result").Obj? && Get(raw, "actual_result").Obj?
    ensures !Satisfied(FrozenTruth(), ActualOf(Respelled(raw)), s)
  {
    hide Read, RetryablePath, RetryableActual, Respelled;
    RespelledMembers(raw);
    ErrorIsRead(Get(raw, "actual_result").members, Text("True"), s);
  }
}
