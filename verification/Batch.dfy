/** The carriers of batch execution and the validators that guard them.  Error
    messages are dropped; error codes are kept. */
module Batch {
  import opened Text
  import opened Unique
  import opened Wrappers

  // ------------------------------------------------------------ result types

  /** A validator either accepts or names the contract error it raises. */
  datatype Check = Accept | Reject(code: string) {
    predicate IsFailure() { Reject? }

    function PropagateFailure(): Check
      requires Reject?
    {
      this
    }
  }

  datatype Result<+T> = Ok(value: T) | Err(code: string)

  function Need(condition: bool, code: string): Check {
    if condition then Accept else Reject(code)
  }

  // ---------------------------------------------------------------- carriers

  /** JSON-safe values.  An object is its list of entries in order. */
  datatype Json =
    | Null
    | Bool(b: bool)
    | Number(n: int)
    | Text(s: string)
    | Array(items: seq<Json>)
    | Object(fields: seq<Entry>)

  datatype Entry = Entry(key: string, value: Json)

  type Fields = seq<Entry>

  function Get(fields: Fields, key: string): Option<Json> {
    if fields == [] then None
    else if fields[|fields| - 1].key == key then Some(fields[|fields| - 1].value)
    else Get(fields[..|fields| - 1], key)
  }

  /** A missing or non-text field reads as the empty text: both are refused
      with the same code. */
  datatype SourceTrace = SourceTrace(
    adapterKey: string,
    providerPath: string,
    fetchedAt: string,
    evidenceAlias: string,
    resourceProfileRef: Option<string>,
    extraFields: bool)

  datatype TargetItem = TargetItem(
    itemId: string,
    operation: string,
    adapterKey: string,
    targetType: string,
    targetRef: string,
    dedupKey: string,
    requestCursor: Option<Json>)

  datatype ResumeToken = ResumeToken(
    id: string,
    batchId: string,
    targetSetHash: string,
    nextItemIndex: int,
    issuedAt: string,
    datasetSinkRef: Option<string>,
    datasetId: Option<string>)

  datatype AuditContext = AuditContext(
    evidenceRef: Option<string>,
    evidenceAlias: Option<string>,
    evidenceRefs: seq<string>)

  datatype Request = Request(
    batchId: string,
    targetSet: seq<TargetItem>,
    resumeToken: Option<ResumeToken>,
    datasetSinkRef: Option<string>,
    datasetId: Option<string>,
    auditContext: AuditContext)

  /** What the item executor is asked, and what it answers.  A failure always
      carries an error mapping. */
  datatype TaskInput =
    | KeywordInput(keyword: string, continuation: Option<string>)
    | CreatorInput(creator: string, continuation: Option<string>)
    | ContentInput(content: string, commentCursor: Option<Json>)
    | MediaInput(media: string, fetchPolicy: Option<Json>)

  datatype TaskRequest = TaskRequest(adapterKey: string, capability: string, input: TaskInput)

  datatype TraceField = NoTrace | MalformedTrace | Trace(trace: SourceTrace)

  datatype TaskEnvelope =
    | TaskSuccess(trace: TraceField, rawPayloadRef: Option<string>, payload: Json)
    | TaskFailure(trace: TraceField, error: Fields)

  datatype OutcomeStatus = Succeeded | Failed | DuplicateSkipped | OtherStatus(name: string)

  datatype Outcome = Outcome(
    itemId: string,
    operation: string,
    adapterKey: string,
    targetRef: string,
    status: OutcomeStatus,
    resultEnvelope: Option<TaskEnvelope>,
    errorEnvelope: Option<Fields>,
    recordRef: Option<string>,
    sourceTrace: Option<SourceTrace>,
    audit: Fields,
    cursorContext: Option<Json>)

  datatype DatasetRecord = DatasetRecord(
    recordId: string,
    datasetId: string,
    sourceOperation: string,
    adapterKey: string,
    targetRef: string,
    rawPayloadRef: Option<string>,
    normalizedPayload: Json,
    evidenceRef: string,
    sourceTrace: SourceTrace,
    dedupKey: string,
    batchId: string,
    batchItemId: string,
    recordedAt: string)

  datatype AuditTrace = AuditTrace(
    batchId: string,
    startedAt: string,
    finished: bool,
    itemCount: int,
    itemTraceRefs: seq<string>,
    evidenceRefs: seq<string>,
    stopReason: Option<string>)

  datatype ResultStatus = Complete | PartialSuccess | AllFailed | Resumable | OtherResult(name: string)

  datatype ResultEnvelope = ResultEnvelope(
    batchId: string,
    operation: string,
    status: ResultStatus,
    outcomes: seq<Outcome>,
    resumeToken: Option<ResumeToken>,
    datasetSinkRef: Option<string>,
    datasetId: Option<string>,
    auditTrace: AuditTrace)

  const BATCH_EXECUTION := "batch_execution"
  const DATASET_WRITE_FAILED := "dataset_write_failed"
  const DATASET_SINK_UNAVAILABLE := "dataset_sink_unavailable"

  const STOP_BOUNDARY_CODES: set<string> :=
    {"execution_timeout", "execution_cancelled", "task_cancelled", "cancelled"}

  const ADMITTED_OPERATIONS: set<string> :=
    {"content_search_by_keyword", "content_list_by_creator", "comment_collection",
     "creator_profile_by_id", "media_asset_fetch_by_ref"}

  function TargetTypeOf(operation: string): string {
    if operation == "content_search_by_keyword" then "keyword"
    else if operation == "comment_collection" then "content"
    else if operation == "media_asset_fetch_by_ref" then "media_ref"
    else "creator"
  }

  /** The keys of the mappings Core itself builds. */
  const CORE_KEYS: set<string> :=
    {"code", "details", "blocked_code", "reason", "dedup_key", "batch_id", "started_at",
     "finished", "item_count", "item_trace_refs", "evidence_refs", "stop_reason"}

  /** The lexical rules for public texts: non-blank texts, accepted references,
      accepted free texts, accepted targets of an operation and accepted
      provider paths. */
  datatype Rules = Rules(
    nonBlank: string -> bool,
    ref: string -> bool,
    text: string -> bool,
    target: (string, string) -> bool,
    path: string -> bool)

  /** The parts of the platform that batch execution calls but does not define.
      The executor is any deterministic machine: its answer to the last call is
      a function of all calls made so far. */
  datatype Host = Host(
    rules: Rules,
    reply: seq<TaskRequest> -> TaskEnvelope,
    resultError: (string, string, string, Option<Json>, TaskEnvelope) -> Option<string>,
    normalize: TaskEnvelope -> Json,
    payloadError: Json -> Option<(string, Fields)>,
    cursorError: TargetItem -> Option<string>,
    embeddedTraceError: Fields -> Option<string>,
    privateKey: string -> bool,
    publicRefKey: string -> bool,
    timestamp: string -> bool,
    targetSetHash: seq<TargetItem> -> string,
    now: string)

  /** The words Core itself writes into public texts. */
  const CORE_WORDS: set<string> :=
    {"invalid_field", "unsafe_ref", "unsafe_public_payload", "invalid_timestamp", "unsafe_source_trace",
     "unsafe_provider_path", "source_trace_boundary_mismatch", "invalid_target_operation", "invalid_item_outcome",
     "invalid_item_outcome_status", "unsafe_item_outcome", "duplicate_dedup_key", "dataset_record_written"}

  /** The fixed parts of the identifiers Core assembles. */
  const CORE_PREFIXES: set<string> := {"resume", "dataset", "audit", "batch", "evidence"}

  /** What batch execution relies on from the lexical rules: accepted references
      are closed under joining, are public texts, and Core's own words pass. */
  ghost predicate Lawful(rules: Rules) {
    && (forall s :: rules.ref(s) ==> rules.nonBlank(s) && rules.text(s) && s != "")
    && (forall a, b {:trigger rules.ref(Join(a, b))} :: rules.ref(a) && rules.ref(b) ==> rules.ref(Join(a, b)))
    && (forall s :: s in CORE_PREFIXES + STOP_BOUNDARY_CODES ==> rules.ref(s))
    && (forall n: nat :: rules.ref(Decimal(n)))
    && (forall s :: s in CORE_WORDS ==> rules.text(s))
  }

  /** What the host is trusted with: its own stamps, digests and error codes are
      public, and the names Core writes are not on the deny list. */
  ghost predicate Trusted(host: Host) {
    && host.timestamp(host.now) && host.rules.nonBlank(host.now) && host.rules.text(host.now)
    && (forall ts :: host.rules.ref(host.targetSetHash(ts)))
    && (forall k :: k in CORE_KEYS ==> !host.privateKey(k) && !host.publicRefKey(k))
    && (forall o, a, t, c, e :: host.resultError(o, a, t, c, e).Some? ==>
          host.rules.text(host.resultError(o, a, t, c, e).value))
    && (forall fs :: host.embeddedTraceError(fs).Some? ==> host.rules.text(host.embeddedTraceError(fs).value))
  }

  ghost predicate Sound(host: Host) {
    Lawful(host.rules) && Trusted(host)
  }

  /** Different target sets have different digests. */
  ghost predicate CollisionFree(host: Host) {
    forall ts, us :: host.targetSetHash(ts) == host.targetSetHash(us) ==> ts == us
  }

  // -------------------------------------------------------------- validators

  function CheckRef(host: Host, s: string): Check {
    if !host.rules.nonBlank(s) then Reject("invalid_field")
    else Need(host.rules.ref(s), "unsafe_ref")
  }

  function CheckOptionalRef(host: Host, s: Option<string>): Check {
    match s
    case None => Accept
    case Some(r) => CheckRef(host, r)
  }

  function CheckRefs(host: Host, refs: seq<string>): Check {
    if refs == [] then Accept
    else
      :- CheckRef(host, refs[0]);
      CheckRefs(host, refs[1..])
  }

  function CheckTargetRef(host: Host, operation: string, s: string): Check {
    if !host.rules.nonBlank(s) then Reject("invalid_field")
    else
      Need(host.rules.target(operation, s),
           if operation == "content_search_by_keyword" then "unsafe_public_payload" else "unsafe_ref")
  }

  function CheckTimestamp(host: Host, s: string): Check {
    if !host.rules.nonBlank(s) then Reject("invalid_field")
    else
        :- Need(host.timestamp(s), "invalid_timestamp");
      Need(host.rules.text(s), "unsafe_public_payload")
  }

  function CheckSourceTrace(host: Host, t: SourceTrace, adapterKey: string): Check {
    if t.extraFields then Reject("unsafe_source_trace")
    else
        :- Need(host.rules.nonBlank(t.adapterKey) && host.rules.nonBlank(t.providerPath)
              && host.rules.nonBlank(t.evidenceAlias),
              "invalid_field");
      :- CheckRef(host, t.adapterKey);
      :- Need(t.adapterKey == adapterKey, "source_trace_boundary_mismatch");
      :- Need(host.rules.path(t.providerPath), "unsafe_provider_path");
      :- CheckRef(host, t.evidenceAlias);
      :- CheckOptionalRef(host, t.resourceProfileRef);
      CheckTimestamp(host, t.fetchedAt)
  }

  function FromCode(code: Option<string>): Check {
    match code
    case None => Accept
    case Some(c) => Reject(c)
  }

  /** No private key and no location text at any depth of a public mapping. */
  function CheckPublic(host: Host, v: Json): Check
    decreases v, 0
  {
    match v
    case Text(s) => Need(host.rules.text(s), "unsafe_public_payload")
    case Array(items) => CheckPublicItems(host, items)
    case Object(fields) => CheckPublicFields(host, fields)
    case _ => Accept
  }

  function CheckPublicItems(host: Host, items: seq<Json>): Check
    decreases items, 0
  {
    if items == [] then Accept
    else
      :- CheckPublic(host, items[0]);
      CheckPublicItems(host, items[1..])
  }

  function CheckPublicFields(host: Host, fields: Fields): Check
    decreases fields, 0
  {
    if fields == [] then Accept
    else
      var f := fields[0];
      :- CheckPublicField(host, f.key, f.value);
      CheckPublicFields(host, fields[1..])
  }

  function CheckPublicField(host: Host, key: string, v: Json): Check
    decreases v, 1
  {
    if key == "source_trace" && v.Object? then FromCode(host.embeddedTraceError(v.fields))
    else
      :- Need(!host.privateKey(key), "unsafe_public_payload");
      :- if host.publicRefKey(key) && v != Null
         then (if v.Text? then CheckRef(host, v.s) else Reject("invalid_field"))
         else Accept;
      CheckPublic(host, v)
  }

  function CheckTargetItem(host: Host, item: TargetItem): Check {
    var first := CheckRef(host, item.itemId);
    :- first;
    :- CheckRef(host, item.adapterKey);
    :- Need(item.operation in ADMITTED_OPERATIONS, "invalid_target_operation");
    :- Need(item.targetType == TargetTypeOf(item.operation), "invalid_target_type");
    :- CheckTargetRef(host, item.operation, item.targetRef);
    :- CheckRef(host, item.dedupKey);
    if item.requestCursor.None? then Accept else FromCode(host.cursorError(item))
  }

  function CheckTargetSet(host: Host, items: seq<TargetItem>): Check {
    if items == [] then Accept
    else
      var n := |items| - 1;
      :- CheckTargetSet(host, items[..n]);
      :- CheckTargetItem(host, items[n]);
      Need(forall i :: 0 <= i < n ==> items[i].itemId != items[n].itemId, "duplicate_item_id")
  }

  function AuditContextRefs(c: AuditContext): seq<string> {
    (if c.evidenceRef.Some? then [c.evidenceRef.value] else [])
    + (if c.evidenceAlias.Some? then [c.evidenceAlias.value] else [])
    + c.evidenceRefs
  }

  function CheckRequest(host: Host, r: Request): Check {
    var first := CheckRef(host, r.batchId);
    :- first;
    :- Need(r.targetSet != [], "empty_target_set");
    :- CheckTargetSet(host, r.targetSet);
    :- CheckOptionalRef(host, r.datasetSinkRef);
    :- CheckOptionalRef(host, r.datasetId);
    :- if r.resumeToken.Some? then CheckResumeToken(host, r.resumeToken.value, r) else Accept;
    CheckRefs(host, AuditContextRefs(r.auditContext))
  }

  function DatasetIdOf(r: Request): Option<string> {
    if r.datasetSinkRef.None? then r.datasetId
    else if r.datasetId.Some? && r.datasetId.value != "" then r.datasetId
    else Some(Join("dataset", r.batchId))
  }

  function ResumeTokenId(batchId: string, next: nat): string {
    Join("resume", Join(batchId, Decimal(next)))
  }

  function CheckTokenCarrier(host: Host, t: ResumeToken): Check {
    var first := CheckRef(host, t.id);
    :- first;
    :- CheckRef(host, t.batchId);
    :- CheckRef(host, t.targetSetHash);
    :- Need(t.nextItemIndex >= 0, "invalid_resume_position");
    :- CheckTimestamp(host, t.issuedAt);
    :- CheckOptionalRef(host, t.datasetSinkRef);
    :- Need(t.datasetSinkRef.Some? ==> t.datasetId.Some?, "invalid_dataset_boundary");
    CheckOptionalRef(host, t.datasetId)
  }

  function CheckResumeToken(host: Host, t: ResumeToken, r: Request): Check {
    var first := CheckTokenCarrier(host, t);
    :- first;
    :- Need(t.batchId == r.batchId && t.targetSetHash == host.targetSetHash(r.targetSet), "invalid_resume_token");
    :- Need(t.datasetSinkRef == r.datasetSinkRef && t.datasetId == DatasetIdOf(r), "invalid_resume_token");
    :- Need(t.nextItemIndex < |r.targetSet|, "invalid_resume_position");
    Need(t.nextItemIndex >= 0 && t.id == ResumeTokenId(r.batchId, t.nextItemIndex), "invalid_resume_token")
  }

  predicate RetainsResult(error: Option<Fields>) {
    error.Some? && Get(error.value, "code") in
      {Some(Json.Text(DATASET_WRITE_FAILED)), Some(Json.Text(DATASET_SINK_UNAVAILABLE))}
  }

  function CheckOutcome(host: Host, o: Outcome, cursor: Option<Json>): Check {
    var first := CheckRef(host, o.itemId);
    :- first;
    :- Need(o.operation in ADMITTED_OPERATIONS, "invalid_target_operation");
    :- CheckRef(host, o.adapterKey);
    :- CheckTargetRef(host, o.operation, o.targetRef);
    :- Need(!o.status.OtherStatus?, "invalid_item_outcome_status");
    :- Need(o.status.Succeeded? ==> o.resultEnvelope.Some? && o.errorEnvelope.None?, "invalid_item_outcome");
    :- Need(o.status.Failed? ==> o.errorEnvelope.Some? && o.recordRef.None?, "invalid_item_outcome");
    :- Need(o.status.Failed? && o.resultEnvelope.Some? ==> RetainsResult(o.errorEnvelope), "invalid_item_outcome");
    :- Need(o.status.DuplicateSkipped? ==> o.resultEnvelope.None? && o.errorEnvelope.None? && o.recordRef.None?,
            "invalid_item_outcome");
    :- if o.resultEnvelope.Some?
       then FromCode(host.resultError(o.operation, o.adapterKey, o.targetRef, cursor, o.resultEnvelope.value))
       else Accept;
    :- if o.errorEnvelope.Some? then CheckPublicFields(host, o.errorEnvelope.value) else Accept;
    :- CheckOptionalRef(host, o.recordRef);
    :- if o.sourceTrace.Some? then CheckSourceTrace(host, o.sourceTrace.value, o.adapterKey) else Accept;
    CheckPublicFields(host, o.audit)
  }

  // ------------------------------------------------------------ dataset sink

  function CheckRecord(host: Host, r: DatasetRecord): Check {
    var first := CheckRef(host, r.recordId);
    :- first;
    :- CheckRef(host, r.datasetId);
    :- Need(r.sourceOperation in ADMITTED_OPERATIONS, "invalid_source_operation");
    :- CheckRef(host, r.adapterKey);
    :- CheckTargetRef(host, r.sourceOperation, r.targetRef);
    :- CheckOptionalRef(host, r.rawPayloadRef);
    :- if host.payloadError(r.normalizedPayload).Some?
       then Reject(host.payloadError(r.normalizedPayload).value.0) else Accept;
    :- CheckRef(host, r.evidenceRef);
    :- CheckSourceTrace(host, r.sourceTrace, r.adapterKey);
    :- CheckRef(host, r.dedupKey);
    :- CheckRef(host, r.batchId);
    :- CheckRef(host, r.batchItemId);
    CheckTimestamp(host, r.recordedAt)
  }

  /** Why a sink holding `records` refuses `r`, if it does. */
  function WriteRefusal(host: Host, records: seq<DatasetRecord>, r: DatasetRecord): Check {
    var first := CheckRecord(host, r);
    :- first;
    :- Need(forall i :: 0 <= i < |records| ==> records[i].recordId != r.recordId, "duplicate_dataset_record");
    Need(forall i :: 0 <= i < |records| ==>
           !(records[i].datasetId == r.datasetId && records[i].dedupKey == r.dedupKey),
         "duplicate_dataset_record")
  }

  // ------------------------------------------------------- result aggregation

  function CountStatus(outcomes: seq<Outcome>, s: OutcomeStatus): nat {
    if outcomes == [] then 0
    else CountStatus(outcomes[..|outcomes| - 1], s) + if outcomes[|outcomes| - 1].status == s then 1 else 0
  }

  function Aggregate(outcomes: seq<Outcome>): ResultStatus {
    var counted := |outcomes| - CountStatus(outcomes, DuplicateSkipped);
    var succeeded := CountStatus(outcomes, Succeeded);
    var failed := CountStatus(outcomes, Failed);
    if counted == 0 then AllFailed
    else if succeeded > 0 && failed == 0 then Complete
    else if failed > 0 && succeeded == 0 then AllFailed
    else PartialSuccess
  }

  // ------------------------------------------------------------- audit trace

  function ItemTraceRef(batchId: string, itemId: string): string {
    Join(Join("audit", "batch"), Join(batchId, itemId))
  }

  function ItemTraceRefs(batchId: string, outcomes: seq<Outcome>): seq<string> {
    seq(|outcomes|, i requires 0 <= i < |outcomes| => ItemTraceRef(batchId, outcomes[i].itemId))
  }

  function OutcomeEvidence(outcomes: seq<Outcome>): seq<string> {
    if outcomes == [] then []
    else
      var last := outcomes[|outcomes| - 1];
      OutcomeEvidence(outcomes[..|outcomes| - 1])
      + if last.sourceTrace.Some? then [last.sourceTrace.value.evidenceAlias] else []
  }

  function BuildAuditTrace(host: Host, r: Request, outcomes: seq<Outcome>, stopReason: Option<string>): AuditTrace {
    AuditTrace(
      r.batchId,
      host.now,
      stopReason.None?,
      |outcomes|,
      ItemTraceRefs(r.batchId, outcomes),
      Dedupe(AuditContextRefs(r.auditContext) + OutcomeEvidence(outcomes)
             + if stopReason.Some? then [Join(Join("evidence", "batch"), stopReason.value)] else []),
      stopReason)
  }

  function RefsJson(refs: seq<string>): Json {
    Array(seq(|refs|, i requires 0 <= i < |refs| => Json.Text(refs[i])))
  }

  function AuditTraceFields(t: AuditTrace): Fields {
    [Entry("batch_id", Json.Text(t.batchId)),
     Entry("started_at", Json.Text(t.startedAt)),
     Entry("finished", Bool(t.finished)),
     Entry("item_count", Json.Number(t.itemCount)),
     Entry("item_trace_refs", RefsJson(t.itemTraceRefs)),
     Entry("evidence_refs", RefsJson(t.evidenceRefs))]
    + if t.stopReason.Some? then [Entry("stop_reason", Json.Text(t.stopReason.value))] else []
  }

  function CheckAuditTrace(host: Host, e: ResultEnvelope): Check {
    var t := e.auditTrace;
    :- Need(t.batchId == e.batchId, "invalid_batch_audit_trace");
    :- CheckTimestamp(host, t.startedAt);
    :- Need(t.itemCount == |e.outcomes|, "invalid_batch_audit_trace");
    :- CheckRefs(host, t.itemTraceRefs);
    :- Need(t.itemTraceRefs == ItemTraceRefs(e.batchId, e.outcomes), "invalid_batch_audit_trace");
    :- CheckRefs(host, t.evidenceRefs);
    :- CheckOptionalRef(host, t.stopReason);
    if e.status.Resumable?
    then Need(!t.finished && t.stopReason.Some? && e.resumeToken.Some?, "invalid_batch_audit_trace")
    else Need(t.finished && t.stopReason.None?, "invalid_batch_audit_trace")
  }

  // --------------------------------------------------------- result envelope

  function CheckOutcomes(host: Host, outcomes: seq<Outcome>): Check {
    if outcomes == [] then Accept
    else
      var n := |outcomes| - 1;
      :- CheckOutcomes(host, outcomes[..n]);
      CheckOutcome(host, outcomes[n], outcomes[n].cursorContext)
  }

  function CheckEnvelope(host: Host, e: ResultEnvelope): Check {
    var first := CheckRef(host, e.batchId);
    :- first;
    :- Need(e.operation == BATCH_EXECUTION, "invalid_batch_operation");
    :- Need(!e.status.OtherResult?, "invalid_batch_result_status");
    :- Need(!e.status.Resumable? ==> e.outcomes != [], "invalid_batch_result_envelope");
    :- CheckOutcomes(host, e.outcomes);
    :- Need(e.status.Resumable? || e.status == Aggregate(e.outcomes), "invalid_batch_result_status");
    :- if e.resumeToken.Some? then CheckEnvelopeToken(host, e, e.resumeToken.value) else Accept;
    :- Need(e.status.Resumable? <==> e.resumeToken.Some?, "invalid_batch_result_envelope");
    :- Need(e.resumeToken.Some? ==> e.resumeToken.value.nextItemIndex == |e.outcomes|, "invalid_resume_token");
    :- CheckOptionalRef(host, e.datasetSinkRef);
    :- Need(e.datasetSinkRef.Some? ==> e.datasetId.Some?, "invalid_dataset_boundary");
    :- Need(forall i :: 0 <= i < |e.outcomes| ==>
              if e.datasetSinkRef.Some? then e.outcomes[i].status.Succeeded? ==> e.outcomes[i].recordRef.Some?
              else e.outcomes[i].recordRef.None?,
            "invalid_dataset_boundary");
    :- CheckOptionalRef(host, e.datasetId);
    :- CheckPublicFields(host, AuditTraceFields(e.auditTrace));
    CheckAuditTrace(host, e)
  }

  function CheckEnvelopeToken(host: Host, e: ResultEnvelope, t: ResumeToken): Check {
    var first := CheckTokenCarrier(host, t);
    :- first;
    :- Need(t.batchId == e.batchId, "invalid_resume_token");
    Need(t.datasetSinkRef == e.datasetSinkRef && t.datasetId == e.datasetId, "invalid_resume_token")
  }
}
