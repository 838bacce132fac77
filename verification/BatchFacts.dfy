/** What the validators guarantee about accepted carriers, and why the carriers
    Core builds from accepted parts are accepted. */
module BatchFacts {
  import opened Text
  import opened Batch
  import opened Wrappers
  import opened BatchRun

  /** The contract codes that can end up inside a public outcome. */
  predicate PublicCode(host: Host, c: Check) {
    c.Reject? ==> host.rules.text(c.code)
  }

  lemma CoreWordsArePublic(host: Host)
    requires Sound(host)
    ensures host.rules.text("invalid_field") && host.rules.text("unsafe_ref")
    ensures host.rules.text("unsafe_public_payload") && host.rules.text("invalid_target_operation")
    ensures host.rules.text("invalid_item_outcome") && host.rules.text("invalid_item_outcome_status")
  {
    assert forall s :: s in CORE_WORDS ==> host.rules.text(s);
  }

  lemma ResultCodeIsPublic(host: Host, operation: string, adapterKey: string, targetRef: string, cursor: Option<Json>,
                           e: Option<TaskEnvelope>)
    requires Sound(host)
    ensures e.Some? ==> PublicCode(host, FromCode(host.resultError(operation, adapterKey, targetRef, cursor, e.value)))
  {
  }

  lemma RefCodeIsPublic(host: Host, s: string)
    requires Sound(host)
    ensures PublicCode(host, CheckRef(host, s))
  {
  }

  lemma TraceCodeIsPublic(host: Host, t: SourceTrace, adapterKey: string)
    requires Sound(host)
    ensures PublicCode(host, CheckSourceTrace(host, t, adapterKey))
  {
  }

  lemma {:induction false} PublicFieldsCodeIsPublic(host: Host, fields: Fields)
    requires Sound(host)
    ensures PublicCode(host, CheckPublicFields(host, fields))
    decreases fields, 0
  {
    if fields != [] {
      var f := fields[0];
      PublicFieldCodeIsPublic(host, f.key, f.value);
      PublicFieldsCodeIsPublic(host, fields[1..]);
    }
  }

  lemma {:induction false} PublicFieldCodeIsPublic(host: Host, key: string, v: Json)
    requires Sound(host)
    ensures PublicCode(host, CheckPublicField(host, key, v))
    decreases v, 1
  {
    if v.Text? {
      RefCodeIsPublic(host, v.s);
    }
    PublicValueCodeIsPublic(host, v);
  }

  lemma {:induction false} PublicValueCodeIsPublic(host: Host, v: Json)
    requires Sound(host)
    ensures PublicCode(host, CheckPublic(host, v))
    decreases v, 0
  {
    match v
    case Array(items) => PublicItemsCodeIsPublic(host, items);
    case Object(fields) => PublicFieldsCodeIsPublic(host, fields);
    case _ =>
  }

  lemma {:induction false} PublicItemsCodeIsPublic(host: Host, items: seq<Json>)
    requires Sound(host)
    ensures PublicCode(host, CheckPublicItems(host, items))
    decreases items, 0
  {
    if items != [] {
      PublicValueCodeIsPublic(host, items[0]);
      PublicItemsCodeIsPublic(host, items[1..]);
    }
  }

  lemma OutcomeCodeIsPublic(host: Host, o: Outcome, cursor: Option<Json>)
    requires Sound(host)
    ensures PublicCode(host, CheckOutcome(host, o, cursor))
  {
    hide CheckPublicFields, CheckSourceTrace, RetainsResult, Sound;
    CoreWordsArePublic(host);
    ResultCodeIsPublic(host, o.operation, o.adapterKey, o.targetRef, cursor, o.resultEnvelope);
    if o.errorEnvelope.Some? {
      PublicFieldsCodeIsPublic(host, o.errorEnvelope.value);
    }
    if o.sourceTrace.Some? {
      TraceCodeIsPublic(host, o.sourceTrace.value, o.adapterKey);
    }
    PublicFieldsCodeIsPublic(host, o.audit);
  }

  // --------------------------------------------------------- accepted requests

  /** What validation establishes about one target item. */
  predicate ValidItem(host: Host, item: TargetItem) {
    && host.rules.ref(item.itemId)
    && host.rules.ref(item.adapterKey)
    && item.operation in ADMITTED_OPERATIONS
    && host.rules.nonBlank(item.targetRef) && host.rules.target(item.operation, item.targetRef)
    && host.rules.ref(item.dedupKey)
  }

  predicate ValidTargets(host: Host, items: seq<TargetItem>) {
    && (forall i :: 0 <= i < |items| ==> ValidItem(host, items[i]))
    && (forall i, j :: 0 <= i < j < |items| ==> items[i].itemId != items[j].itemId)
  }

  lemma TargetItemIsValid(host: Host, item: TargetItem)
    requires CheckTargetItem(host, item).Accept?
    ensures ValidItem(host, item)
  {
  }

  lemma {:induction false} TargetSetIsValid(host: Host, items: seq<TargetItem>)
    requires CheckTargetSet(host, items).Accept?
    ensures ValidTargets(host, items)
  {
    hide CheckTargetItem, ValidItem;
    if items != [] {
      var n := |items| - 1;
      TargetSetIsValid(host, items[..n]);
      TargetItemIsValid(host, items[n]);
      assert items == items[..n] + [items[n]];
      forall i, j | 0 <= i < j < |items|
        ensures items[i].itemId != items[j].itemId
      {
        if j < n {
          assert items[i] == items[..n][i] && items[j] == items[..n][j];
        }
      }
    }
  }

  /** What validation establishes about a request, apart from its token. */
  predicate ValidRequest(host: Host, r: Request) {
    && host.rules.ref(r.batchId)
    && r.targetSet != []
    && ValidTargets(host, r.targetSet)
    && (r.datasetSinkRef.Some? ==> host.rules.ref(r.datasetSinkRef.value))
    && (r.datasetId.Some? ==> host.rules.ref(r.datasetId.value))
    && CheckRefs(host, AuditContextRefs(r.auditContext)).Accept?
  }

  lemma RequestIsValid(host: Host, r: Request)
    requires CheckRequest(host, r).Accept?
    ensures ValidRequest(host, r)
    ensures r.resumeToken.Some? ==> CheckResumeToken(host, r.resumeToken.value, r).Accept?
  {
    TargetSetIsValid(host, r.targetSet);
  }

  lemma DatasetIdIsAccepted(host: Host, r: Request)
    requires Sound(host) && ValidRequest(host, r)
    ensures r.datasetSinkRef.Some? ==> DatasetIdOf(r).Some?
    ensures DatasetIdOf(r).Some? ==> host.rules.ref(DatasetIdOf(r).value)
  {
    assert host.rules.ref(Join("dataset", r.batchId));
  }

  // -------------------------------------------------------- published outcomes

  lemma ReasonIsPublic(host: Host, reason: string)
    requires Sound(host) && host.rules.text(reason)
    ensures CheckPublicFields(host, Because(reason)).Accept?
  {
    TextFieldIsPublic(host, "reason", reason);
    SingletonIsPublic(host, Because(reason)[0]);
  }

  lemma TextFieldIsPublic(host: Host, key: string, s: string)
    requires Sound(host) && key in CORE_KEYS && host.rules.text(s) && key != "source_trace"
    ensures CheckPublicField(host, key, Json.Text(s)).Accept?
  {
  }

  lemma SingletonIsPublic(host: Host, a: Entry)
    requires CheckPublicField(host, a.key, a.value).Accept?
    ensures CheckPublicFields(host, [a]).Accept?
  {
    assert CheckPublicFields(host, [a][1..]).Accept?;
  }

  lemma PairIsPublic(host: Host, a: Entry, b: Entry)
    requires CheckPublicField(host, a.key, a.value).Accept? && CheckPublicField(host, b.key, b.value).Accept?
    ensures CheckPublicFields(host, [a, b]).Accept?
  {
    assert [a, b][1..] == [b];
    SingletonIsPublic(host, b);
  }

  /** The replacement of an unsafe outcome is itself safe, whatever blocked it. */
  lemma UnsafeOutcomeIsPublic(host: Host, item: TargetItem, code: string, cursor: Option<Json>)
    requires Sound(host) && ValidItem(host, item) && host.rules.text(code)
    ensures CheckOutcome(host, UnsafeOutcome(item, code), cursor).Accept?
  {
    var blocked := Entry("blocked_code", Json.Text(code));
    TextFieldIsPublic(host, "blocked_code", code);
    TextFieldIsPublic(host, "code", "unsafe_item_outcome");
    TextFieldIsPublic(host, "reason", "unsafe_item_outcome");
    SingletonIsPublic(host, blocked);
    assert CheckPublicField(host, "details", Object([blocked])).Accept?;
    PairIsPublic(host, Entry("code", Json.Text("unsafe_item_outcome")), Entry("details", Object([blocked])));
    PairIsPublic(host, Entry("reason", Json.Text("unsafe_item_outcome")), blocked);
    assert Because("unsafe_item_outcome") + [blocked] == [Entry("reason", Json.Text("unsafe_item_outcome")), blocked];
  }

  /** An outcome Core has just built for `item`. */
  predicate FreshFor(o: Outcome, item: TargetItem) {
    SameItem(o, item) && o.cursorContext.None?
  }

  /** The cursor an outcome is later validated under is as good as the item's. */
  predicate CursorBound(o: Outcome, item: TargetItem) {
    o.resultEnvelope.Some? ==> o.cursorContext == item.requestCursor
  }

  lemma CursorIrrelevantWithoutResult(host: Host, o: Outcome, c: Option<Json>, d: Option<Json>)
    requires o.resultEnvelope.None? || c == d
    ensures CheckOutcome(host, o, c) == CheckOutcome(host, o, d)
  {
  }

  /** Everything Core publishes for an accepted item is a valid outcome of that
      item, under the item's own cursor and under the cursor it carries. */
  lemma PublishedIsValid(host: Host, item: TargetItem, o: Outcome)
    requires Sound(host) && ValidItem(host, item) && FreshFor(o, item)
    ensures var p := Publish(host, item, o);
            && SameItem(p, item) && CursorBound(p, item)
            && CheckOutcome(host, p, item.requestCursor).Accept?
            && CheckOutcome(host, p, p.cursorContext).Accept?
    ensures Publish(host, item, o).status.Succeeded? ==> Publish(host, item, o) == WithCursorContext(item, o)
  {
    var enriched := WithCursorContext(item, o);
    var p := Publish(host, item, o);
    var c := CheckOutcome(host, enriched, item.requestCursor);
    OutcomeCodeIsPublic(host, enriched, item.requestCursor);
    if c.Reject? {
      UnsafeOutcomeIsPublic(host, item, c.code, item.requestCursor);
    }
    CursorIrrelevantWithoutResult(host, p, item.requestCursor, p.cursorContext);
  }

  /** A duplicate is reported as skipped, never as unsafe: its dedup key was
      accepted as a reference, hence is public as a text. */
  lemma SkippedIsPublished(host: Host, item: TargetItem)
    requires Sound(host) && ValidItem(host, item)
    ensures Publish(host, item, SkippedOutcome(item)) == SkippedOutcome(item)
  {
    TextFieldIsPublic(host, "reason", "duplicate_dedup_key");
    TextFieldIsPublic(host, "dedup_key", item.dedupKey);
    var a, b := Entry("reason", Json.Text("duplicate_dedup_key")), Entry("dedup_key", Json.Text(item.dedupKey));
    PairIsPublic(host, a, b);
    assert Because("duplicate_dedup_key") + [b] == [a, b];
  }

  /** A success that passed validation before its record was written passes it
      again afterwards, when it carries the record's id. */
  lemma WrittenIsPublished(host: Host, item: TargetItem, e: TaskEnvelope, trace: Option<SourceTrace>, id: string)
    requires Sound(host) && host.rules.ref(id)
    requires Publish(host, item, PendingOutcome(item, e, trace)).status.Succeeded?
    ensures var o := SucceededOutcome(item, e, Some(id), trace, "dataset_record_written");
            Publish(host, item, o) == WithCursorContext(item, o)
  {
    ReasonIsPublic(host, "dataset_record_written");
  }
}
