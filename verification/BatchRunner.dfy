/** Batch execution as it runs: a loop over the target set that calls the item
    executor, writes to the sink and remembers the dedup keys it has seen.  It
    computes exactly what `BatchRun.Execute` describes. */
module BatchRunner {
  import opened Batch
  import opened Wrappers
  import opened BatchRun
  import opened BatchSink

  /** The item executor, with the calls made so far. */
  class TaskExecutor {
    const host: Host
    var calls: seq<TaskRequest>

    constructor (host: Host)
      ensures this.host == host && calls == []
    {
      this.host := host;
      calls := [];
    }

    method ExecuteTask(request: TaskRequest) returns (e: TaskEnvelope)
      modifies this
      ensures calls == old(calls) + [request]
      ensures e == host.reply(calls)
    {
      calls := calls + [request];
      e := host.reply(calls);
    }
  }

  function RecordsOf(sink: ReferenceDatasetSink?): seq<DatasetRecord>
    reads if sink == null then {} else {sink}
  {
    if sink == null then [] else sink.records
  }

  ghost predicate Fits(job: Job, sink: ReferenceDatasetSink?)
    reads if sink == null then {} else {sink}
  {
    && (job.bound <==> sink != null)
    && (sink != null ==> sink.Valid() && sink.host == job.host)
  }

  method SettleTask(job: Job, item: TargetItem, e: TaskEnvelope, sink: ReferenceDatasetSink?)
    returns (outcome: Outcome)
    requires Fits(job, sink)
    modifies if sink == null then {} else {sink}
    ensures Fits(job, sink)
    ensures Settled(outcome, RecordsOf(sink)) == Settle(job, item, e, old(RecordsOf(sink)))
  {
    hide CheckOutcome, CheckRecord, CheckSourceTrace;
    var r := job.request;
    var traced := TraceOf(job.host, e, item.adapterKey);
    if traced.Err? {
      return UnsafeOutcome(item, traced.code);
    }
    var trace := traced.value;
    if e.TaskFailure? {
      return FailedOutcome(item, None, e.error, trace, "item_failed");
    }
    if r.datasetSinkRef.Some? && sink == null {
      var error := Coded(DATASET_SINK_UNAVAILABLE, [Entry("dataset_sink_ref", Json.Text(r.datasetSinkRef.value))]);
      return FailedOutcome(item, Some(e), error, trace, DATASET_SINK_UNAVAILABLE);
    }
    var datasetId := DatasetIdOf(r);
    if r.datasetSinkRef.None? || datasetId.None? {
      return SucceededOutcome(item, e, None, trace, "item_succeeded_without_dataset_sink");
    }
    var pending := Publish(job.host, item, PendingOutcome(item, e, trace));
    if !pending.status.Succeeded? {
      return pending;
    }
    var rec := RecordFor(job.host, r, datasetId.value, item, e, trace);
    var details := RefusalDetails(job.host, sink.records, rec);
    var written := sink.Write(rec);
    if written.Err? {
      return FailedOutcome(item, Some(e), Coded(DATASET_WRITE_FAILED, details), trace, DATASET_WRITE_FAILED);
    }
    return SucceededOutcome(item, e, Some(written.value.recordId), trace, "dataset_record_written");
  }

  /** The dedup keys of the first `i` items. */
  function KeysBefore(items: seq<TargetItem>, i: nat): set<string>
    requires i <= |items|
  {
    set j | 0 <= j < i :: items[j].dedupKey
  }

  lemma SeenMeansDuplicate(items: seq<TargetItem>, i: nat)
    requires i < |items|
    ensures items[i].dedupKey in KeysBefore(items, i) <==> Duplicate(items, i)
    ensures KeysBefore(items, i + 1) == KeysBefore(items, i) + {items[i].dedupKey}
  {
  }

  /** One item: skipped when its dedup key was seen, executed otherwise. */
  method ProcessItem(job: Job, i: nat, seen: set<string>, executor: TaskExecutor, sink: ReferenceDatasetSink?)
    returns (outcome: Outcome, stop: Option<string>)
    requires i < |job.request.targetSet| && seen == KeysBefore(job.request.targetSet, i)
    requires Fits(job, sink) && executor.host == job.host
    modifies executor, if sink == null then {} else {sink}
    ensures Fits(job, sink)
    ensures Stepped(outcome, stop, World(executor.calls, RecordsOf(sink)))
         == Step(job, i, old(World(executor.calls, RecordsOf(sink))))
  {
    hide Settle, Publish, Duplicate, KeysBefore, StopCode, TaskRequestFor, SkippedOutcome;
    var item := job.request.targetSet[i];
    SeenMeansDuplicate(job.request.targetSet, i);
    if item.dedupKey in seen {
      return Publish(job.host, item, SkippedOutcome(item)), None;
    }
    var e := executor.ExecuteTask(TaskRequestFor(item));
    var settled := SettleTask(job, item, e, sink);
    return Publish(job.host, item, settled), StopCode(settled);
  }

  method ExecuteBatchRequest(job: Job, executor: TaskExecutor, sink: ReferenceDatasetSink?, prior: seq<Outcome>, cut: Cut)
    returns (result: Result<ResultEnvelope>)
    requires Fits(job, sink) && executor.host == job.host
    modifies executor, if sink == null then {} else {sink}
    ensures Fits(job, sink)
    ensures Ran(result, World(executor.calls, RecordsOf(sink)))
         == Execute(job, prior, cut, old(World(executor.calls, RecordsOf(sink))))
  {
    hide Step, ResumableResult, TerminalResult, KeysBefore, StopAt, Admit, Duplicate;
    var items := job.request.targetSet;
    var admitted := Admit(job, prior, RecordsOf(sink));
    if admitted.Err? {
      return Err(admitted.code);
    }
    var outcomes := admitted.value;
    var start := |outcomes|;
    ghost var goal := Execute(job, prior, cut, World(executor.calls, RecordsOf(sink)));
    var stopAt := StopAt(|items|, start, cut);
    var seen := set j | 0 <= j < start && j < |items| :: items[j].dedupKey;
    var i := start;
    assert i <= |items| ==> seen == KeysBefore(items, i) by { SeenAtStart(items, start); }
    while i < |items|
      invariant start <= i && (i <= |items| || i == start)
      invariant Fits(job, sink) && executor.host == job.host
      invariant i <= |items| ==> seen == KeysBefore(items, i)
      invariant goal == RunFrom(job, i, stopAt, cut.reason, outcomes, World(executor.calls, RecordsOf(sink)))
    {
      if i >= stopAt {
        return ResumableResult(job, outcomes, i, cut.reason);
      }
      var outcome, stop := ProcessItem(job, i, seen, executor, sink);
      SeenMeansDuplicate(items, i);
      seen := seen + {items[i].dedupKey};
      outcomes := outcomes + [outcome];
      i := i + 1;
      if stop.Some? && i < |items| {
        return ResumableResult(job, outcomes, i, stop.value);
      }
    }
    return Ok(TerminalResult(job, outcomes));
  }

  lemma SeenAtStart(items: seq<TargetItem>, start: nat)
    ensures start <= |items| ==> (set j | 0 <= j < start && j < |items| :: items[j].dedupKey) == KeysBefore(items, start)
  {
  }
}
