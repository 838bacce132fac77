/** One fold over the target set, without any stops: the reference that every
    chain of interrupted and resumed runs is compared with. */
module BatchFold {
  import opened Batch
  import opened Wrappers
  import opened BatchRun
  import opened BatchFacts

  datatype Folded = Folded(outcomes: seq<Outcome>, world: World)

  /** The first `n` items, one after the other, from world `w`. */
  function Fold(job: Job, n: nat, w: World): (f: Folded)
    requires n <= |job.request.targetSet|
    ensures |f.outcomes| == n
  {
    if n == 0 then Folded([], w)
    else
      var before := Fold(job, n - 1, w);
      var s := Step(job, n - 1, before.world);
      Folded(before.outcomes + [s.outcome], s.world)
  }

  /** The batch writes to a sink the caller handed over. */
  predicate Bound(job: Job) {
    job.request.datasetSinkRef.Some? && job.bound
  }

  /** A success of a sink-bound batch adds one record of `item` to `before` and
      carries its id; anything else adds nothing and carries no id. */
  predicate Recorded(job: Job, item: TargetItem, o: Outcome, before: seq<DatasetRecord>, now: seq<DatasetRecord>) {
    if Bound(job) && o.status.Succeeded? then
      && |now| == |before| + 1
      && now[..|before|] == before
      && RecordOf(job.request, item, now[|before|])
      && ProvesSuccess(job.request, item, o, now[|before|])
      && WriteRefusal(job.host, before, now[|before|]).Accept?
    else
      now == before && o.recordRef.None? && (job.request.datasetSinkRef.Some? ==> !o.status.Succeeded?)
  }

  /** What the settled outcome of an accepted item looks like once published. */
  predicate Settles(job: Job, item: TargetItem, s: Settled, records: seq<DatasetRecord>) {
    var p := Publish(job.host, item, s.outcome);
    && FreshFor(s.outcome, item)
    && (p.status.Failed? || p.status.Succeeded?)
    && Recorded(job, item, p, records, s.records)
  }

  lemma FailureSettles(job: Job, item: TargetItem, o: Outcome, records: seq<DatasetRecord>)
    requires FreshFor(o, item) && o.status.Failed? && o.recordRef.None?
    ensures Settles(job, item, Settled(o, records), records)
  {
    hide CheckOutcome;
  }

  /** Publishing never turns a written success into a failure: the record's id
      was accepted by the sink, the rest was validated before the write. */
  lemma WriteSettles(job: Job, item: TargetItem, e: TaskEnvelope, trace: Option<SourceTrace>,
                     rec: DatasetRecord, records: seq<DatasetRecord>)
    requires Sound(job.host) && Bound(job)
    requires Publish(job.host, item, PendingOutcome(item, e, trace)).status.Succeeded?
    requires e.TaskSuccess? && DatasetIdOf(job.request).Some?
    requires rec == RecordFor(job.host, job.request, DatasetIdOf(job.request).value, item, e, trace)
    ensures Settles(job, item, WriteSuccess(job, item, e, trace, rec, records), records)
  {
    hide CheckOutcome, CheckSourceTrace, RefusalDetails, Publish, DatasetIdOf;
    var s := WriteSuccess(job, item, e, trace, rec, records);
    if s.outcome.status.Failed? {
      FailureSettles(job, item, s.outcome, records);
    } else {
      assert job.host.rules.ref(rec.recordId);
      WrittenIsPublished(job.host, item, e, trace, rec.recordId);
      assert s.records[..|records|] == records;
    }
  }

  lemma SuccessSettles(job: Job, item: TargetItem, e: TaskEnvelope, trace: Option<SourceTrace>,
                       records: seq<DatasetRecord>)
    requires Sound(job.host) && e.TaskSuccess?
    ensures Settles(job, item, SettleSuccess(job, item, e, trace, records), records)
  {
    hide CheckOutcome, WriteSuccess, WriteRefusal;
    var r := job.request;
    if r.datasetSinkRef.Some? && job.bound {
      if Publish(job.host, item, PendingOutcome(item, e, trace)).status.Succeeded? {
        WriteSettles(job, item, e, trace, RecordFor(job.host, r, DatasetIdOf(r).value, item, e, trace), records);
      }
    }
  }

  lemma ItemSettles(job: Job, item: TargetItem, e: TaskEnvelope, records: seq<DatasetRecord>)
    requires Sound(job.host)
    ensures Settles(job, item, Settle(job, item, e, records), records)
  {
    hide Publish, Recorded, SettleSuccess, TraceOf;
    match TraceOf(job.host, e, item.adapterKey)
    case Err(code) =>
      FailureSettles(job, item, UnsafeOutcome(item, code), records);
    case Ok(trace) =>
      if e.TaskFailure? {
        FailureSettles(job, item, FailedOutcome(item, None, e.error, trace, "item_failed"), records);
      } else {
        SuccessSettles(job, item, e, trace, records);
      }
  }

  // --------------------------------------------------------------- one step

  /** What every processed item leaves behind. */
  predicate GoodOutcome(job: Job, i: nat, o: Outcome)
    requires i < |job.request.targetSet|
  {
    var item := job.request.targetSet[i];
    && SameItem(o, item)
    && CursorBound(o, item)
    && CheckOutcome(job.host, o, item.requestCursor).Accept?
    && CheckOutcome(job.host, o, o.cursorContext).Accept?
    && !o.status.OtherStatus?
    && (Duplicate(job.request.targetSet, i) <==> o.status.DuplicateSkipped?)
    && (o.recordRef.Some? <==> job.request.datasetSinkRef.Some? && o.status.Succeeded?)
  }

  lemma StepIsGood(job: Job, i: nat, w: World)
    requires Sound(job.host) && ValidRequest(job.host, job.request) && i < |job.request.targetSet|
    ensures GoodOutcome(job, i, Step(job, i, w).outcome)
    ensures Recorded(job, job.request.targetSet[i], Step(job, i, w).outcome, w.records, Step(job, i, w).world.records)
  {
    hide CheckOutcome, Publish, Settle, WriteRefusal;
    var item := job.request.targetSet[i];
    if Duplicate(job.request.targetSet, i) {
      PublishedIsValid(job.host, item, SkippedOutcome(item));
      SkippedIsPublished(job.host, item);
    } else {
      var e := job.host.reply(w.calls + [TaskRequestFor(item)]);
      ItemSettles(job, item, e, w.records);
      PublishedIsValid(job.host, item, Settle(job, item, e, w.records).outcome);
    }
  }

  /** The executor is called for a first occurrence and left alone for a
      duplicate. */
  lemma StepCalls(job: Job, i: nat, w: World)
    requires i < |job.request.targetSet|
    ensures Step(job, i, w).world.calls == w.calls + ItemRequests(job.request.targetSet, i)
  {
    hide Settle, Publish, Duplicate, StopCode;
  }

  function ItemRequests(items: seq<TargetItem>, i: nat): seq<TaskRequest>
    requires i < |items|
  {
    if Duplicate(items, i) then [] else [TaskRequestFor(items[i])]
  }
}
