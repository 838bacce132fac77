/** What the evidence references of the release gate name: a revision, and cases in
    the approved local artifacts. */
module OperabilityEvidence {
  import opened Text
  import opened OperabilityJson

  // ------------------------------------------------------------------ references

  const ALLOWED_KINDS: seq<string> :=
    ["FR-", "operability:", "test_evidence:", "tests:", "local:", "ci:", "gate:", "log:", "metrics:"]

  /** Local evidence that can be reviewed. */
  predicate IsAllowedRef(ref: string) {
    && ref != "" && !StartsWith(ref, "http://") && !StartsWith(ref, "https://")
    && exists i :: 0 <= i < |ALLOWED_KINDS| && StartsWith(ref, ALLOWED_KINDS[i])
  }

  const BASELINE := "FR-0007:version_gate:v0.6.0:baseline:"

  const REVISION_KINDS: set<string> :=
    {"evidence", "operability", "test_evidence", "tests", "local", "ci", "gate", "log", "metrics"}

  /** The revision that a text names as evidence, or the empty text. */
  function EvidenceRevision(ref: string): string {
    var parts := Split(ref, ':');
    if StartsWith(ref, BASELINE) then ref[|BASELINE|..]
    else if |parts| >= 3 && parts[0] in REVISION_KINDS then parts[1]
    else if Contains(ref, ":v0.6.0:") && EndsWith(ref, ":baseline") && |parts| >= 4 then parts[|parts| - 2]
    else ""
  }

  const APPROVED_UPSTREAM_MODULES: set<string> :=
    {"tests.runtime.test_execution_control", "tests.runtime.test_runtime_observability",
     "tests.runtime.test_http_api", "tests.runtime.test_cli_http_same_path", "tests.runtime.test_version_gate"}

  /** Upstream evidence of an approved module for a case. */
  predicate IsUpstreamRef(ref: string, id: string) {
    var parts := Split(ref, ':');
    && |parts| == 4 && parts[0] in {"tests", "log"}
    && id in parts[2..] && parts[2] in APPROVED_UPSTREAM_MODULES
  }

  /** Every text inside a value that names a revision names this one. */
  predicate IsBoundTo(j: Json, revision: string) {
    match j
    case Text(s) => EvidenceRevision(s) == "" || EvidenceRevision(s) == revision
    case Arr(items) => forall i :: 0 <= i < |items| ==> IsBoundTo(items[i], revision)
    case Obj(members) => forall k :: k in members ==> IsBoundTo(members[k], revision)
    case _ => true
  }

  // ------------------------------------------------------------------- artifacts

  /** The approved artifacts that can be read, by path. */
  type Artifacts = map<string, Json>

  predicate IsCase(j: Json, id: string) {
    j.Obj? && Get(j.members, "case_id") == Text(id)
  }

  function FirstCase(items: seq<Json>, id: string): Json {
    if items == [] then Null
    else if IsCase(items[0], id) then items[0]
    else FirstCase(items[1..], id)
  }

  function CaseIn(cases: Json, id: string): Json {
    match cases
    case Obj(members) => Get(members, id)
    case Arr(items) => FirstCase(items, id)
    case _ => Null
  }

  predicate IsLocalRef(artifacts: Artifacts, ref: string, id: string, slot: string) {
    var parts := Split(ref, ':');
    && |parts| == 5 && parts[0] == "local" && parts[2] in artifacts && artifacts[parts[2]].Obj?
    && parts[3] == id && parts[4] == slot
  }

  function PathOf(artifacts: Artifacts, ref: string, id: string, slot: string): (path: string)
    requires IsLocalRef(artifacts, ref, id, slot)
    ensures path in artifacts && artifacts[path].Obj?
  {
    Split(ref, ':')[2]
  }

  /** The case that a reference names in an artifact, if it is a mapping. */
  function LocalCase(artifacts: Artifacts, ref: string, id: string, slot: string): (c: Json)
    ensures c.Obj? || c == Null
  {
    if !IsLocalRef(artifacts, ref, id, slot) then Null
    else
      var c := CaseIn(Get(artifacts[PathOf(artifacts, ref, id, slot)].members, "cases"), id);
      if c.Obj? then c else Null
  }

  /** The actual result that an artifact holds for a case. */
  function StoredActual(artifacts: Artifacts, ref: string, id: string): Json {
    var c := LocalCase(artifacts, ref, id, "actual_result");
    if c.Obj? then Get(c.members, "actual_result") else Null
  }

  // ------------------------------------------------------- rewriting an artifact

  function WithActual(c: Json, actual: Json): (r: Json)
    requires c.Obj?
    ensures r.Obj? && Get(r.members, "actual_result") == actual
  {
    Obj(c.members["actual_result" := actual])
  }

  function FirstCaseWith(items: seq<Json>, id: string, actual: Json): seq<Json> {
    if items == [] then []
    else if IsCase(items[0], id) then [WithActual(items[0], actual)] + items[1..]
    else [items[0]] + FirstCaseWith(items[1..], id, actual)
  }

  function CasesWith(cases: Json, id: string, actual: Json): Json {
    match cases
    case Obj(members) =>
      if Get(members, id).Obj? then Obj(members[id := WithActual(members[id], actual)]) else cases
    case Arr(items) => Arr(FirstCaseWith(items, id, actual))
    case _ => cases
  }

  /** The artifacts with another actual result in the case that a reference names. */
  function Rewritten(artifacts: Artifacts, ref: string, id: string, actual: Json): Artifacts {
    if !IsLocalRef(artifacts, ref, id, "actual_result") then artifacts
    else
      var path := PathOf(artifacts, ref, id, "actual_result");
      var members := artifacts[path].members;
      artifacts[path := Obj(members["cases" := CasesWith(Get(members, "cases"), id, actual)])]
  }

  /** A case keeps its identifier when its actual result changes. */
  lemma WithActualIsCase(c: Json, actual: Json, id: string)
    requires c.Obj?
    ensures IsCase(WithActual(c, actual), id) <==> IsCase(c, id)
  {
    assert "case_id"[0] == 'c' && "actual_result"[0] == 'a';
  }

  lemma {:induction false} FirstCaseRewritten(items: seq<Json>, id: string, actual: Json, other: string)
    ensures var c, r := FirstCase(items, other), FirstCase(FirstCaseWith(items, id, actual), other);
            (c.Obj? || c == Null) && r == if c.Obj? && other == id then WithActual(c, actual) else c
  {
    hide WithActual;
    if items != [] {
      FirstCaseRewritten(items[1..], id, actual, other);
      if IsCase(items[0], id) {
        WithActualIsCase(items[0], actual, other);
        assert FirstCaseWith(items, id, actual)[1..] == items[1..];
      } else {
        assert FirstCaseWith(items, id, actual)[1..] == FirstCaseWith(items[1..], id, actual);
      }
    }
  }

  lemma CaseRewritten(cases: Json, id: string, actual: Json, other: string)
    ensures var c, r := CaseIn(cases, other), CaseIn(CasesWith(cases, id, actual), other);
            r == if c.Obj? && other == id then WithActual(c, actual) else c
  {
    hide WithActual;
    if cases.Arr? {
      FirstCaseRewritten(cases.items, id, actual, other);
    }
  }

  /** Rewriting changes what the references to this case in this artifact name, and
      nothing else that a reference names. */
  lemma LocalCaseRewritten(artifacts: Artifacts, ref: string, id: string, actual: Json,
                           otherRef: string, other: string, slot: string)
    ensures var c, r := LocalCase(artifacts, otherRef, other, slot),
                        LocalCase(Rewritten(artifacts, ref, id, actual), otherRef, other, slot);
            && (r == c || (other == id && c.Obj? && r == WithActual(c, actual)))
            && (otherRef == ref && other == id && c.Obj? && slot == "actual_result" ==> r == WithActual(c, actual))
  {
    hide WithActual, CaseIn, CasesWith, Split;
    if IsLocalRef(artifacts, ref, id, "actual_result") && IsLocalRef(artifacts, otherRef, other, slot) {
      var path := PathOf(artifacts, ref, id, "actual_result");
      CaseRewritten(Get(artifacts[path].members, "cases"), id, actual, other);
    }
  }

  /** The case named reads as rewritten, and every other case as before. */
  lemma RewrittenIsStored(artifacts: Artifacts, ref: string, id: string, actual: Json)
    requires LocalCase(artifacts, ref, id, "actual_result").Obj?
    ensures var after := Rewritten(artifacts, ref, id, actual);
            && StoredActual(after, ref, id) == actual
            && (forall otherRef, other :: other != id ==>
                  StoredActual(after, otherRef, other) == StoredActual(artifacts, otherRef, other))
            && (forall otherRef, other, slot :: LocalCase(after, otherRef, other, slot).Obj? <==>
                  LocalCase(artifacts, otherRef, other, slot).Obj?)
  {
    hide LocalCase, Rewritten;
    var after := Rewritten(artifacts, ref, id, actual);
    LocalCaseRewritten(artifacts, ref, id, actual, ref, id, "actual_result");
    forall otherRef, other, slot
      ensures LocalCase(after, otherRef, other, slot).Obj? <==> LocalCase(artifacts, otherRef, other, slot).Obj?
      ensures other != id ==> LocalCase(after, otherRef, other, slot) == LocalCase(artifacts, otherRef, other, slot)
    {
      LocalCaseRewritten(artifacts, ref, id, actual, otherRef, other, slot);
    }
  }

  // ------------------------------------------------------------- plain texts

  lemma ContainedCharacter(s: string, t: string, c: char)
    requires c in t && c !in s
    ensures !StartsWith(s, t) && !Contains(s, t)
  {
    if Contains(s, t) {
      CharactersOfContained(s, t, c);
    }
  }

  /** A text without a colon names no revision. */
  lemma PlainTextIsUnbound(s: string)
    requires ':' !in s
    ensures EvidenceRevision(s) == ""
  {
    SplitStep(s, ':');
    assert BASELINE[7] == ':' && ":v0.6.0:"[0] == ':';
    ContainedCharacter(s, BASELINE, ':');
    ContainedCharacter(s, ":v0.6.0:", ':');
  }
}
