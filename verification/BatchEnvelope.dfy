/** Why the result envelopes Core returns pass its own envelope validator. */
module BatchEnvelope {
  import opened Text
  import opened Batch
  import opened Unique
  import opened Wrappers
  import opened BatchRun
  import opened BatchFacts

  // ------------------------------------------------------------ lists of refs

  predicate AllRefs(host: Host, refs: seq<string>) {
    forall i :: 0 <= i < |refs| ==> host.rules.ref(refs[i])
  }

  lemma {:induction false} RefsAccepted(host: Host, refs: seq<string>)
    requires Lawful(host.rules)
    ensures CheckRefs(host, refs).Accept? <==> AllRefs(host, refs)
  {
    if refs != [] {
      RefsAccepted(host, refs[1..]);
      assert AllRefs(host, refs) <==> host.rules.ref(refs[0]) && AllRefs(host, refs[1..]) by {
        assert refs == [refs[0]] + refs[1..];
      }
    }
  }

  lemma {:induction false} DedupedAreRefs(host: Host, refs: seq<string>)
    requires AllRefs(host, refs)
    ensures AllRefs(host, Dedupe(refs))
  {
    if refs != [] {
      DedupedAreRefs(host, refs[..|refs| - 1]);
    }
  }

  lemma {:induction false} EvidenceAreRefs(host: Host, outcomes: seq<Outcome>)
    requires Sound(host)
    requires forall i :: 0 <= i < |outcomes| ==> CheckOutcome(host, outcomes[i], outcomes[i].cursorContext).Accept?
    ensures AllRefs(host, OutcomeEvidence(outcomes))
  {
    hide CheckOutcome, CheckPublicFields;
    if outcomes != [] {
      var n := |outcomes| - 1;
      EvidenceAreRefs(host, outcomes[..n]);
      AcceptedOutcome(host, outcomes[n], outcomes[n].cursorContext);
    }
  }

  lemma AcceptedOutcome(host: Host, o: Outcome, cursor: Option<Json>)
    requires CheckOutcome(host, o, cursor).Accept?
    ensures host.rules.ref(o.itemId)
    ensures o.sourceTrace.Some? ==> host.rules.ref(o.sourceTrace.value.evidenceAlias)
    ensures o.status.Succeeded? ==> o.resultEnvelope.Some?
  {
    hide CheckPublicFields;
  }

  // -------------------------------------------------------- public audit trace

  lemma {:induction false} ItemsArePublic(host: Host, items: seq<Json>)
    requires forall i :: 0 <= i < |items| ==> CheckPublic(host, items[i]).Accept?
    ensures CheckPublicItems(host, items).Accept?
  {
    hide CheckPublic;
    if items != [] {
      ItemsArePublic(host, items[1..]);
    }
  }

  lemma TextsArePublic(host: Host, refs: seq<string>)
    requires Lawful(host.rules) && AllRefs(host, refs)
    ensures CheckPublic(host, RefsJson(refs)).Accept?
  {
    ItemsArePublic(host, RefsJson(refs).items);
  }

  lemma {:induction false} FieldsArePublic(host: Host, fields: Fields)
    requires forall i :: 0 <= i < |fields| ==> CheckPublicField(host, fields[i].key, fields[i].value).Accept?
    ensures CheckPublicFields(host, fields).Accept?
  {
    hide CheckPublicField;
    if fields != [] {
      FieldsArePublic(host, fields[1..]);
    }
  }

  /** A field of Core's own, whose value is public, is public. */
  lemma CoreFieldIsPublic(host: Host, key: string, v: Json)
    requires Sound(host) && key in CORE_KEYS && !v.Object?
    requires CheckPublic(host, v).Accept?
    ensures CheckPublicField(host, key, v).Accept?
  {
  }

  predicate TraceOfRefs(host: Host, t: AuditTrace) {
    && host.rules.ref(t.batchId)
    && host.rules.text(t.startedAt)
    && AllRefs(host, t.itemTraceRefs)
    && AllRefs(host, t.evidenceRefs)
    && (t.stopReason.Some? ==> host.rules.ref(t.stopReason.value))
  }

  lemma AuditTraceIsPublic(host: Host, t: AuditTrace)
    requires Sound(host) && TraceOfRefs(host, t)
    ensures CheckPublicFields(host, AuditTraceFields(t)).Accept?
  {
    hide CheckPublicField, RefsJson;
    TextsArePublic(host, t.itemTraceRefs);
    TextsArePublic(host, t.evidenceRefs);
    assert RefsJson(t.itemTraceRefs).Array? && RefsJson(t.evidenceRefs).Array? by { RefsJsonIsArray(); }
    CoreFieldIsPublic(host, "batch_id", Json.Text(t.batchId));
    CoreFieldIsPublic(host, "started_at", Json.Text(t.startedAt));
    CoreFieldIsPublic(host, "finished", Bool(t.finished));
    CoreFieldIsPublic(host, "item_count", Json.Number(t.itemCount));
    CoreFieldIsPublic(host, "item_trace_refs", RefsJson(t.itemTraceRefs));
    CoreFieldIsPublic(host, "evidence_refs", RefsJson(t.evidenceRefs));
    if t.stopReason.Some? {
      CoreFieldIsPublic(host, "stop_reason", Json.Text(t.stopReason.value));
    }
    FieldsArePublic(host, AuditTraceFields(t));
  }

  lemma RefsJsonIsArray()
    ensures forall refs :: RefsJson(refs).Array?
  {
  }

  // --------------------------------------------------------- built audit trace

  lemma ItemTraceRefsAreRefs(host: Host, batchId: string, outcomes: seq<Outcome>)
    requires Sound(host) && host.rules.ref(batchId)
    requires forall i :: 0 <= i < |outcomes| ==> host.rules.ref(outcomes[i].itemId)
    ensures AllRefs(host, ItemTraceRefs(batchId, outcomes))
  {
    assert host.rules.ref(Join("audit", "batch"));
    forall i | 0 <= i < |outcomes|
      ensures host.rules.ref(ItemTraceRefs(batchId, outcomes)[i])
    {
      assert host.rules.ref(Join(batchId, outcomes[i].itemId));
      assert host.rules.ref(ItemTraceRef(batchId, outcomes[i].itemId));
    }
  }

  /** What the validator asks of each outcome in an envelope of request `r`. */
  predicate Carried(host: Host, r: Request, o: Outcome) {
    && CheckOutcome(host, o, o.cursorContext).Accept?
    && if r.datasetSinkRef.Some? then o.status.Succeeded? ==> o.recordRef.Some? else o.recordRef.None?
  }

  predicate AllCarried(host: Host, r: Request, outcomes: seq<Outcome>) {
    forall i :: 0 <= i < |outcomes| ==> Carried(host, r, outcomes[i])
  }

  lemma BuiltTraceIsOfRefs(host: Host, r: Request, outcomes: seq<Outcome>, stopReason: Option<string>)
    requires Sound(host) && ValidRequest(host, r) && AllCarried(host, r, outcomes)
    requires stopReason.Some? ==> host.rules.ref(stopReason.value)
    ensures TraceOfRefs(host, BuildAuditTrace(host, r, outcomes, stopReason))
  {
    hide CheckOutcome, ItemTraceRefs, ValidTargets;
    forall i | 0 <= i < |outcomes|
      ensures host.rules.ref(outcomes[i].itemId)
    {
      AcceptedOutcome(host, outcomes[i], outcomes[i].cursorContext);
    }
    ItemTraceRefsAreRefs(host, r.batchId, outcomes);
    RefsAccepted(host, AuditContextRefs(r.auditContext));
    EvidenceAreRefs(host, outcomes);
    var stop := if stopReason.Some? then [Join(Join("evidence", "batch"), stopReason.value)] else [];
    assert host.rules.ref(Join("evidence", "batch"));
    DedupedAreRefs(host, AuditContextRefs(r.auditContext) + OutcomeEvidence(outcomes) + stop);
  }

  // ------------------------------------------------------------------ envelope

  lemma {:induction false} OutcomesAccepted(host: Host, outcomes: seq<Outcome>)
    ensures CheckOutcomes(host, outcomes).Accept? <==>
            forall i :: 0 <= i < |outcomes| ==> CheckOutcome(host, outcomes[i], outcomes[i].cursorContext).Accept?
  {
    hide CheckOutcome;
    if outcomes != [] {
      OutcomesAccepted(host, outcomes[..|outcomes| - 1]);
    }
  }

  lemma AggregateIsTerminal(outcomes: seq<Outcome>)
    ensures !Aggregate(outcomes).Resumable? && !Aggregate(outcomes).OtherResult?
  {
  }

  lemma TraceIsAccepted(host: Host, e: ResultEnvelope, r: Request, stopReason: Option<string>)
    requires Sound(host) && ValidRequest(host, r) && AllCarried(host, r, e.outcomes)
    requires stopReason.Some? ==> host.rules.ref(stopReason.value)
    requires e.auditTrace == BuildAuditTrace(host, r, e.outcomes, stopReason) && e.batchId == r.batchId
    requires e.status.Resumable? <==> stopReason.Some?
    requires e.status.Resumable? <==> e.resumeToken.Some?
    ensures CheckAuditTrace(host, e).Accept?
    ensures CheckPublicFields(host, AuditTraceFields(e.auditTrace)).Accept?
  {
    hide CheckOutcome, CheckPublicFields, AuditTraceFields, ValidTargets;
    BuiltTraceIsOfRefs(host, r, e.outcomes, stopReason);
    AuditTraceIsPublic(host, e.auditTrace);
    RefsAccepted(host, e.auditTrace.itemTraceRefs);
    RefsAccepted(host, e.auditTrace.evidenceRefs);
  }

  lemma TerminalIsAccepted(job: Job, outcomes: seq<Outcome>)
    requires Sound(job.host) && ValidRequest(job.host, job.request) && outcomes != []
    requires AllCarried(job.host, job.request, outcomes)
    ensures CheckEnvelope(job.host, TerminalResult(job, outcomes)).Accept?
  {
    hide CheckOutcome, CheckPublicFields, AuditTraceFields, CheckAuditTrace, BuildAuditTrace, ValidTargets, Aggregate;
    AggregateIsTerminal(outcomes);
    OutcomesAccepted(job.host, outcomes);
    DatasetIdIsAccepted(job.host, job.request);
    TraceIsAccepted(job.host, TerminalResult(job, outcomes), job.request, None);
  }

  /** The token Core issues for the `next` item. */
  function IssuedToken(job: Job, next: nat): ResumeToken {
    var r := job.request;
    ResumeToken(ResumeTokenId(r.batchId, next), r.batchId, job.host.targetSetHash(r.targetSet), next,
                job.host.now, r.datasetSinkRef, DatasetIdOf(r))
  }

  lemma IssuedTokenIsAccepted(job: Job, next: nat)
    requires Sound(job.host) && ValidRequest(job.host, job.request)
    ensures CheckTokenCarrier(job.host, IssuedToken(job, next)).Accept?
    ensures next < |job.request.targetSet| ==> CheckResumeToken(job.host, IssuedToken(job, next), job.request).Accept?
  {
    hide ValidTargets, CheckRefs;
    assert job.host.rules.ref(Join(job.request.batchId, Decimal(next)));
    DatasetIdIsAccepted(job.host, job.request);
  }

  lemma ResumableIsAccepted(job: Job, outcomes: seq<Outcome>, stopReason: string)
    requires Sound(job.host) && ValidRequest(job.host, job.request) && job.host.rules.ref(stopReason)
    requires AllCarried(job.host, job.request, outcomes)
    ensures var res := ResumableResult(job, outcomes, |outcomes|, stopReason);
            && res.Ok? && CheckEnvelope(job.host, res.value).Accept?
            && res.value.resumeToken == Some(IssuedToken(job, |outcomes|))
  {
    hide CheckOutcome, CheckPublicFields, AuditTraceFields, CheckAuditTrace, BuildAuditTrace, ValidTargets,
         CheckTokenCarrier;
    var e := ResumableResult(job, outcomes, |outcomes|, stopReason).value;
    IssuedTokenIsAccepted(job, |outcomes|);
    OutcomesAccepted(job.host, outcomes);
    DatasetIdIsAccepted(job.host, job.request);
    TraceIsAccepted(job.host, e, job.request, Some(stopReason));
  }
}
