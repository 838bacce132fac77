/** One call of batch execution as a function of the request, the prior
    outcomes and the world: the executor calls made so far and the records the
    sink holds. */
module BatchRun {
  import opened Text
  import opened Batch
  import opened Wrappers

  datatype World = World(calls: seq<TaskRequest>, records: seq<DatasetRecord>)

  /** What stays fixed over all calls that run or resume one batch.  `bound`
      says whether the caller hands over a dataset sink. */
  datatype Job = Job(host: Host, request: Request, bound: bool)

  // ------------------------------------------------------------ one target item

  function ContinuationToken(cursor: Option<Json>): Option<string> {
    if cursor.Some? && cursor.value.Object? then
      match Get(cursor.value.fields, "continuation_token")
      case Some(Text(s)) => Some(s)
      case _ => None
    else None
  }

  function TaskRequestFor(item: TargetItem): TaskRequest {
    TaskRequest(
      item.adapterKey,
      item.operation,
      if item.operation == "content_search_by_keyword" then
        KeywordInput(item.targetRef, ContinuationToken(item.requestCursor))
      else if item.operation == "content_list_by_creator" then
        CreatorInput(item.targetRef, ContinuationToken(item.requestCursor))
      else if item.operation == "comment_collection" then
        ContentInput(item.targetRef, item.requestCursor)
      else if item.operation == "creator_profile_by_id" then
        CreatorInput(item.targetRef, None)
      else
        MediaInput(item.targetRef, item.requestCursor))
  }

  function Because(reason: string): Fields {
    [Entry("reason", Json.Text(reason))]
  }

  function Coded(code: string, details: Fields): Fields {
    [Entry("code", Json.Text(code)), Entry("details", Object(details))]
  }

  /** The replacement for an outcome that must not leave Core. */
  function UnsafeOutcome(item: TargetItem, code: string): Outcome {
    Outcome(item.itemId, item.operation, item.adapterKey, item.targetRef, Failed, None,
            Some(Coded("unsafe_item_outcome", [Entry("blocked_code", Json.Text(code))])), None, None,
            Because("unsafe_item_outcome") + [Entry("blocked_code", Json.Text(code))], None)
  }

  function WithCursorContext(item: TargetItem, o: Outcome): Outcome {
    if o.resultEnvelope.None? || item.requestCursor.None? || o.cursorContext.Some? then o
    else o.(cursorContext := item.requestCursor)
  }

  /** Validation of an outcome before it becomes public. */
  function Publish(host: Host, item: TargetItem, o: Outcome): Outcome {
    var enriched := WithCursorContext(item, o);
    match CheckOutcome(host, enriched, item.requestCursor)
    case Accept => enriched
    case Reject(code) => UnsafeOutcome(item, code)
  }

  function SkippedOutcome(item: TargetItem): Outcome {
    Outcome(item.itemId, item.operation, item.adapterKey, item.targetRef, DuplicateSkipped, None, None, None, None,
            Because("duplicate_dedup_key") + [Entry("dedup_key", Json.Text(item.dedupKey))], None)
  }

  function FailedOutcome(item: TargetItem, result: Option<TaskEnvelope>, error: Fields,
                         trace: Option<SourceTrace>, reason: string): Outcome {
    Outcome(item.itemId, item.operation, item.adapterKey, item.targetRef, Failed, result, Some(error), None, trace,
            Because(reason), None)
  }

  function SucceededOutcome(item: TargetItem, result: TaskEnvelope, recordRef: Option<string>,
                            trace: Option<SourceTrace>, reason: string): Outcome {
    Outcome(item.itemId, item.operation, item.adapterKey, item.targetRef, Succeeded, Some(result), None, recordRef,
            trace, Because(reason), None)
  }

  function TraceOf(host: Host, e: TaskEnvelope, adapterKey: string): Result<Option<SourceTrace>> {
    match e.trace
    case NoTrace => Ok(None)
    case MalformedTrace => Err("invalid_field")
    case Trace(t) =>
      match CheckSourceTrace(host, t, adapterKey)
      case Accept => Ok(Some(t))
      case Reject(code) => Err(code)
  }

  const DEFAULT_EVIDENCE := "evidence:batch:item"

  function RecordFor(host: Host, r: Request, datasetId: string, item: TargetItem, e: TaskEnvelope,
                     trace: Option<SourceTrace>): DatasetRecord
    requires e.TaskSuccess?
  {
    DatasetRecord(
      Join(datasetId, item.itemId),
      datasetId,
      item.operation,
      item.adapterKey,
      item.targetRef,
      e.rawPayloadRef,
      host.normalize(e),
      if trace.Some? then trace.value.evidenceAlias else DEFAULT_EVIDENCE,
      if trace.Some? then trace.value
      else SourceTrace(item.adapterKey, "provider:sanitized:batch", host.now, DEFAULT_EVIDENCE, None, false),
      item.dedupKey,
      r.batchId,
      item.itemId,
      host.now)
  }

  /** The details a refused write reports. */
  function RefusalDetails(host: Host, records: seq<DatasetRecord>, rec: DatasetRecord): Fields {
    if CheckRecord(host, rec).Reject? then
      match host.payloadError(rec.normalizedPayload)
      case Some((_, details)) => details
      case None => [Entry("field", Json.Text("raw_payload_ref"))]
    else if exists i :: 0 <= i < |records| && records[i].recordId == rec.recordId then
      [Entry("dataset_record_id", Json.Text(rec.recordId))]
    else
      [Entry("dataset_id", Json.Text(rec.datasetId)), Entry("dedup_key", Json.Text(rec.dedupKey))]
  }

  datatype Settled = Settled(outcome: Outcome, records: seq<DatasetRecord>)

  /** Turns an executor answer into an outcome, writing the record of a
      success that passes validation when the batch is bound to a sink. */
  function Settle(job: Job, item: TargetItem, e: TaskEnvelope, records: seq<DatasetRecord>): Settled {
    match TraceOf(job.host, e, item.adapterKey)
    case Err(code) => Settled(UnsafeOutcome(item, code), records)
    case Ok(trace) =>
      if e.TaskFailure? then
        Settled(FailedOutcome(item, None, e.error, trace, "item_failed"), records)
      else
        SettleSuccess(job, item, e, trace, records)
  }

  function SettleSuccess(job: Job, item: TargetItem, e: TaskEnvelope, trace: Option<SourceTrace>,
                         records: seq<DatasetRecord>): Settled
    requires e.TaskSuccess?
  {
    var r := job.request;
    if r.datasetSinkRef.Some? && !job.bound then
      var error := Coded(DATASET_SINK_UNAVAILABLE, [Entry("dataset_sink_ref", Json.Text(r.datasetSinkRef.value))]);
      Settled(FailedOutcome(item, Some(e), error, trace, DATASET_SINK_UNAVAILABLE), records)
    else if r.datasetSinkRef.None? || DatasetIdOf(r).None? then
      Settled(SucceededOutcome(item, e, None, trace, "item_succeeded_without_dataset_sink"), records)
    else
      var pending := Publish(job.host, item, PendingOutcome(item, e, trace));
      if !pending.status.Succeeded? then Settled(pending, records)
      else WriteSuccess(job, item, e, trace, RecordFor(job.host, r, DatasetIdOf(r).value, item, e, trace), records)
  }

  function PendingOutcome(item: TargetItem, e: TaskEnvelope, trace: Option<SourceTrace>): Outcome {
    SucceededOutcome(item, e, None, trace, "item_succeeded_pending_dataset_write")
  }

  function WriteSuccess(job: Job, item: TargetItem, e: TaskEnvelope, trace: Option<SourceTrace>,
                        rec: DatasetRecord, records: seq<DatasetRecord>): Settled
  {
    if WriteRefusal(job.host, records, rec).Reject? then
      var error := Coded(DATASET_WRITE_FAILED, RefusalDetails(job.host, records, rec));
      Settled(FailedOutcome(item, Some(e), error, trace, DATASET_WRITE_FAILED), records)
    else
      Settled(SucceededOutcome(item, e, Some(rec.recordId), trace, "dataset_record_written"), records + [rec])
  }

  /** The error code with which an outcome interrupts the batch. */
  function StopCode(o: Outcome): Option<string> {
    if o.status.Failed? && o.errorEnvelope.Some? then
      match Get(o.errorEnvelope.value, "code")
      case Some(Text(code)) => if code in STOP_BOUNDARY_CODES then Some(code) else None
      case _ => None
    else None
  }

  /** An earlier item of the target set has the same dedup key. */
  predicate Duplicate(items: seq<TargetItem>, i: nat)
    requires i < |items|
  {
    exists j :: 0 <= j < i && items[j].dedupKey == items[i].dedupKey
  }

  datatype Stepped = Stepped(outcome: Outcome, stop: Option<string>, world: World)

  function Step(job: Job, i: nat, w: World): Stepped
    requires i < |job.request.targetSet|
  {
    var item := job.request.targetSet[i];
    if Duplicate(job.request.targetSet, i) then
      Stepped(Publish(job.host, item, SkippedOutcome(item)), None, w)
    else
      var calls := w.calls + [TaskRequestFor(item)];
      var s := Settle(job, item, job.host.reply(calls), w.records);
      Stepped(Publish(job.host, item, s.outcome), StopCode(s.outcome), World(calls, s.records))
  }

  // ------------------------------------------------------------- one batch call

  datatype Ran = Ran(result: Result<ResultEnvelope>, world: World)

  function ResumableResult(job: Job, outcomes: seq<Outcome>, next: nat, stopReason: string): Result<ResultEnvelope> {
    var r := job.request;
    match CheckRef(job.host, stopReason)
    case Reject(code) => Err(code)
    case Accept =>
      Ok(ResultEnvelope(
           r.batchId, BATCH_EXECUTION, Resumable, outcomes,
           Some(ResumeToken(ResumeTokenId(r.batchId, next), r.batchId, job.host.targetSetHash(r.targetSet), next,
                            job.host.now, r.datasetSinkRef, DatasetIdOf(r))),
           r.datasetSinkRef, DatasetIdOf(r),
           BuildAuditTrace(job.host, r, outcomes, Some(stopReason))))
  }

  function TerminalResult(job: Job, outcomes: seq<Outcome>): ResultEnvelope {
    var r := job.request;
    ResultEnvelope(r.batchId, BATCH_EXECUTION, Aggregate(outcomes), outcomes, None, r.datasetSinkRef, DatasetIdOf(r),
                   BuildAuditTrace(job.host, r, outcomes, None))
  }

  /** The item loop from `i` on. */
  function RunFrom(job: Job, i: nat, stopAt: int, stopReason: string, outcomes: seq<Outcome>, w: World): Ran
    decreases |job.request.targetSet| - i
  {
    var n := |job.request.targetSet|;
    if i >= n then Ran(Ok(TerminalResult(job, outcomes)), w)
    else if i >= stopAt then Ran(ResumableResult(job, outcomes, i, stopReason), w)
    else
      var s := Step(job, i, w);
      var done := outcomes + [s.outcome];
      if s.stop.Some? && i + 1 < n then Ran(ResumableResult(job, done, i + 1, s.stop.value), s.world)
      else RunFrom(job, i + 1, stopAt, stopReason, done, s.world)
  }

  /** Where a caller lets a run stop: after so many items, for a reason. */
  datatype Cut = Cut(after: Option<int>, reason: string)

  function StopAt(n: nat, start: nat, cut: Cut): int {
    if cut.after.Some? && start + cut.after.value < n then start + cut.after.value else n
  }

  // ------------------------------------------------------------ resume checks

  function CanonicalPrior(job: Job, prior: seq<Outcome>): Result<seq<Outcome>> {
    if prior == [] then Ok([])
    else
      var n := |prior| - 1;
      match CanonicalPrior(job, prior[..n])
      case Err(code) => Err(code)
      case Ok(done) =>
        var inside := n < |job.request.targetSet|;
        var o := if inside then WithCursorContext(job.request.targetSet[n], prior[n]) else prior[n];
        match CheckOutcome(job.host, o, if inside then job.request.targetSet[n].requestCursor else None)
        case Reject(code) => Err(code)
        case Accept => Ok(done + [o])
  }

  predicate SameItem(o: Outcome, item: TargetItem) {
    && o.itemId == item.itemId && o.operation == item.operation
    && o.adapterKey == item.adapterKey && o.targetRef == item.targetRef
  }

  /** `rec` belongs to this batch's dataset, to this batch and to this item. */
  predicate RecordOf(r: Request, item: TargetItem, rec: DatasetRecord) {
    && DatasetIdOf(r) == Some(rec.datasetId)
    && rec.batchId == r.batchId
    && rec.batchItemId == item.itemId
  }

  predicate HasRecord(r: Request, item: TargetItem, records: seq<DatasetRecord>) {
    exists k :: 0 <= k < |records| && RecordOf(r, item, records[k])
  }

  /** The record a successful prior outcome must point to. */
  predicate ProvesSuccess(r: Request, item: TargetItem, o: Outcome, rec: DatasetRecord) {
    && DatasetIdOf(r) == Some(rec.datasetId)
    && o.recordRef == Some(rec.recordId)
    && rec.batchId == r.batchId
    && rec.batchItemId == item.itemId
    && rec.dedupKey == item.dedupKey
    && rec.sourceOperation == item.operation
    && rec.adapterKey == item.adapterKey
    && rec.targetRef == item.targetRef
  }

  function CheckPosition(job: Job, records: seq<DatasetRecord>, next: nat): Check {
    var r := job.request;
    if r.datasetSinkRef.None? then Accept
    else
      :- Need(DatasetIdOf(r).Some? && job.bound, "resume_dataset_state_missing");
      Need(forall i :: next <= i < |r.targetSet| ==> !HasRecord(r, r.targetSet[i], records), "invalid_resume_position")
  }

  function CheckPrefixItem(job: Job, o: Outcome, records: seq<DatasetRecord>, i: nat): Check
    requires i < |job.request.targetSet|
  {
    var r := job.request;
    var item := r.targetSet[i];
    var duplicate := Duplicate(r.targetSet, i);
    :- Need(!o.status.OtherStatus?, "resume_outcome_status_invalid");
    :- Need(SameItem(o, item), "resume_outcome_prefix_mismatch");
    :- Need(o.status.Succeeded? ==>
              && o.resultEnvelope.Some?
              && job.host.resultError(item.operation, item.adapterKey, item.targetRef, item.requestCursor,
                                      o.resultEnvelope.value).None?,
            "resume_result_envelope_mismatch");
    :- Need(duplicate <==> o.status.DuplicateSkipped?, "resume_dedup_state_mismatch");
    :- Need(o.status.DuplicateSkipped? ==> o.recordRef.None?, "resume_dedup_state_mismatch");
    :- Need(r.datasetSinkRef.None? ==> o.recordRef.None?, "resume_dataset_state_mismatch");
    :- Need(r.datasetSinkRef.Some? && !o.status.Succeeded? ==> !(job.bound && HasRecord(r, item, records)),
            "resume_dataset_state_mismatch");
    if r.datasetSinkRef.None? || !o.status.Succeeded? then Accept
    else
      :- Need(job.bound && DatasetIdOf(r).Some? && o.recordRef.Some? && o.recordRef.value != "",
              "resume_dataset_state_missing");
      Need(exists k :: 0 <= k < |records| && ProvesSuccess(r, item, o, records[k]), "resume_dataset_state_mismatch")
  }

  function CheckPrefix(job: Job, outcomes: seq<Outcome>, records: seq<DatasetRecord>): Check {
    if outcomes == [] then Accept
    else
      var n := |outcomes| - 1;
      :- CheckPrefix(job, outcomes[..n], records);
      :- Need(n < |job.request.targetSet|, "invalid_resume_position");
      CheckPrefixItem(job, outcomes[n], records, n)
  }

  function StartIndex(r: Request): int {
    if r.resumeToken.Some? then r.resumeToken.value.nextItemIndex else 0
  }

  /** Everything checked before the first item runs: the request, the prior
      outcomes and the resumed sink. */
  function Admit(job: Job, prior: seq<Outcome>, records: seq<DatasetRecord>): Result<seq<Outcome>> {
    var r := job.request;
    var start := StartIndex(r);
    match CheckRequest(job.host, r)
    case Reject(code) => Err(code)
    case Accept =>
      match CanonicalPrior(job, prior)
      case Err(code) => Err(code)
      case Ok(outcomes) =>
        if |outcomes| != start then Err("resume_outcome_prefix_mismatch")
        else if start == 0 then Ok(outcomes)
        else
          match CheckPosition(job, records, start)
          case Reject(code) => Err(code)
          case Accept =>
            match CheckPrefix(job, outcomes, records)
            case Reject(code) => Err(code)
            case Accept => Ok(outcomes)
  }

  /** One call of batch execution. */
  function Execute(job: Job, prior: seq<Outcome>, cut: Cut, w: World): Ran {
    match Admit(job, prior, w.records)
    case Err(code) => Ran(Err(code), w)
    case Ok(outcomes) =>
      RunFrom(job, |outcomes|, StopAt(|job.request.targetSet|, |outcomes|, cut), cut.reason, outcomes, w)
  }
}
