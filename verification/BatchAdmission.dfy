/** What holds after any accepted call, including resumes with outcomes and
    tokens the caller made up. */
module BatchAdmission {
  import opened Batch
  import opened Wrappers
  import opened BatchRun
  import opened BatchFacts
  import opened BatchFold
  import opened BatchEnvelope
  import opened BatchTheorems

  // -------------------------------------------------- what admission guarantees

  lemma {:induction false} CanonicalOutcomes(job: Job, prior: seq<Outcome>)
    requires CanonicalPrior(job, prior).Ok? && |prior| <= |job.request.targetSet|
    ensures var os := CanonicalPrior(job, prior).value;
            |os| == |prior| && forall i :: 0 <= i < |os| ==>
              && os[i] == WithCursorContext(job.request.targetSet[i], prior[i])
              && CheckOutcome(job.host, os[i], job.request.targetSet[i].requestCursor).Accept?
  {
    hide CheckOutcome, WithCursorContext;
    if prior != [] {
      CanonicalOutcomes(job, prior[..|prior| - 1]);
    }
  }

  lemma {:induction false} CanonicalLength(job: Job, prior: seq<Outcome>)
    requires CanonicalPrior(job, prior).Ok?
    ensures |CanonicalPrior(job, prior).value| == |prior|
  {
    hide CheckOutcome, WithCursorContext;
    if prior != [] {
      CanonicalLength(job, prior[..|prior| - 1]);
    }
  }

  lemma {:induction false} PrefixItems(job: Job, outcomes: seq<Outcome>, records: seq<DatasetRecord>)
    requires CheckPrefix(job, outcomes, records).Accept?
    ensures |outcomes| <= |job.request.targetSet|
    ensures forall i :: 0 <= i < |outcomes| ==> CheckPrefixItem(job, outcomes[i], records, i).Accept?
  {
    hide CheckPrefixItem;
    if outcomes != [] {
      var n := |outcomes| - 1;
      PrefixItems(job, outcomes[..n], records);
    }
  }

  /** The outcomes an accepted call starts from. */
  predicate Admitted(job: Job, prior: seq<Outcome>, outcomes: seq<Outcome>, records: seq<DatasetRecord>) {
    && |outcomes| == |prior| == StartIndex(job.request)
    && |outcomes| < |job.request.targetSet|
    && (forall i :: 0 <= i < |outcomes| ==>
          && outcomes[i] == WithCursorContext(job.request.targetSet[i], prior[i])
          && CheckOutcome(job.host, outcomes[i], job.request.targetSet[i].requestCursor).Accept?
          && CheckPrefixItem(job, outcomes[i], records, i).Accept?)
    && (|outcomes| > 0 ==> CheckPosition(job, records, |outcomes|).Accept?)
  }

  lemma AdmissionGuarantees(job: Job, prior: seq<Outcome>, records: seq<DatasetRecord>)
    requires Admit(job, prior, records).Ok?
    ensures CheckRequest(job.host, job.request).Accept?
    ensures Admitted(job, prior, Admit(job, prior, records).value, records)
  {
    hide CheckRequest, CheckPosition, CheckPrefix, CanonicalPrior, CheckOutcome, CheckPrefixItem, WithCursorContext;
    var outcomes := Admit(job, prior, records).value;
    CanonicalLength(job, prior);
    StartIsInside(job);
    CanonicalOutcomes(job, prior);
    if outcomes != [] {
      PrefixItems(job, outcomes, records);
    }
  }

  /** An accepted request starts strictly inside its target set. */
  lemma StartIsInside(job: Job)
    requires CheckRequest(job.host, job.request).Accept?
    ensures 0 <= StartIndex(job.request) < |job.request.targetSet|
  {
    hide CheckTargetSet, CheckRefs;
  }

  // ------------------------------------------------------- the run after it

  /** `e` ends a run that had processed `outcomes` before: it keeps them, adds
      good outcomes behind them and is either terminal or resumable at the next
      item. */
  ghost predicate Ends(job: Job, outcomes: seq<Outcome>, e: ResultEnvelope) {
    && |outcomes| <= |e.outcomes| <= |job.request.targetSet|
    && e.outcomes[..|outcomes|] == outcomes
    && (forall i :: |outcomes| <= i < |e.outcomes| ==> GoodOutcome(job, i, e.outcomes[i]))
    && if |e.outcomes| == |job.request.targetSet| then e == TerminalResult(job, e.outcomes)
       else exists reason :: job.host.rules.ref(reason) && Ok(e) == ResumableResult(job, e.outcomes, |e.outcomes|, reason)
  }

  lemma {:induction false} RunEnds(job: Job, i: nat, stopAt: int, reason: string, outcomes: seq<Outcome>, w: World)
    requires Sound(job.host) && ValidRequest(job.host, job.request)
    requires |outcomes| == i <= |job.request.targetSet|
    requires RunFrom(job, i, stopAt, reason, outcomes, w).result.Ok?
    ensures Ends(job, outcomes, RunFrom(job, i, stopAt, reason, outcomes, w).result.value)
    decreases |job.request.targetSet| - i
  {
    hide Step, GoodOutcome, ResumableResult, TerminalResult, Recorded, ValidRequest;
    var n := |job.request.targetSet|;
    var e := RunFrom(job, i, stopAt, reason, outcomes, w).result.value;
    if i < n {
      if i >= stopAt {
        ResumableKeepsOutcomes(job, outcomes, i, reason);
      } else {
        var s := Step(job, i, w);
        var done := outcomes + [s.outcome];
        StepIsGood(job, i, w);
        if s.stop.Some? && i + 1 < n {
          ResumableKeepsOutcomes(job, done, i + 1, s.stop.value);
        } else {
          RunEnds(job, i + 1, stopAt, reason, done, s.world);
          assert e.outcomes[..i + 1][..i] == e.outcomes[..i];
          assert e.outcomes[..i + 1][i] == e.outcomes[i];
        }
        assert done[..i] == outcomes;
      }
    } else {
      assert TerminalResult(job, outcomes).outcomes == outcomes by { TerminalKeepsOutcomes(job, outcomes); }
    }
  }

  lemma ResumableKeepsOutcomes(job: Job, outcomes: seq<Outcome>, next: nat, reason: string)
    requires ResumableResult(job, outcomes, next, reason).Ok?
    ensures ResumableResult(job, outcomes, next, reason).value.outcomes == outcomes
    ensures job.host.rules.ref(reason)
  {
  }

  lemma TerminalKeepsOutcomes(job: Job, outcomes: seq<Outcome>)
    ensures TerminalResult(job, outcomes).outcomes == outcomes
  {
  }

  // ------------------------------------------------- envelopes pass validation

  /** A prior outcome is also valid under the cursor it carries itself. */
  predicate SelfConsistent(job: Job, i: nat, o: Outcome)
    requires i < |job.request.targetSet|
  {
    var enriched := WithCursorContext(job.request.targetSet[i], o);
    CheckOutcome(job.host, enriched, enriched.cursorContext).Accept?
  }

  lemma AdmittedIsCarried(job: Job, prior: seq<Outcome>, outcomes: seq<Outcome>, records: seq<DatasetRecord>, i: nat)
    requires Admitted(job, prior, outcomes, records) && i < |outcomes|
    ensures Carried(job.host, job.request, outcomes[i]) <==> SelfConsistent(job, i, prior[i])
  {
    hide CheckOutcome, CheckPosition, DatasetIdOf, Duplicate, ProvesSuccess, HasRecord;
    assert CheckPrefixItem(job, outcomes[i], records, i).Accept?;
    assert CheckOutcome(job.host, outcomes[i], job.request.targetSet[i].requestCursor).Accept?;
  }

  lemma EndIsAccepted(job: Job, outcomes: seq<Outcome>, e: ResultEnvelope)
    requires Sound(job.host) && ValidRequest(job.host, job.request)
    requires Ends(job, outcomes, e) && AllCarried(job.host, job.request, e.outcomes)
    ensures CheckEnvelope(job.host, e).Accept?
  {
    hide CheckEnvelope, GoodOutcome, Carried, TerminalResult, ResumableResult, ValidTargets;
    if |e.outcomes| == |job.request.targetSet| {
      TerminalIsAccepted(job, e.outcomes);
    } else {
      var reason :| job.host.rules.ref(reason) && Ok(e) == ResumableResult(job, e.outcomes, |e.outcomes|, reason);
      ResumableIsAccepted(job, e.outcomes, reason);
    }
  }

  /** The validators accept what the runner emits.  The envelope of an accepted
      call is accepted exactly when every prior outcome handed in is valid under
      the cursor context it carries itself; a fresh call and a resume with
      Core's own outcomes always meet that. */
  lemma EmittedEnvelopeIsAccepted(job: Job, prior: seq<Outcome>, cut: Cut, w: World)
    requires Sound(job.host)
    requires Execute(job, prior, cut, w).result.Ok?
    ensures |prior| < |job.request.targetSet|
    ensures CheckEnvelope(job.host, Execute(job, prior, cut, w).result.value).Accept? <==>
            forall i :: 0 <= i < |prior| ==> SelfConsistent(job, i, prior[i])
  {
    hide CheckRequest, CheckEnvelope, SelfConsistent, GoodOutcome, Carried, Admit, RunFrom, CheckOutcome, ValidRequest,
         TerminalResult, ResumableResult, CheckPrefixItem, CheckPosition, WithCursorContext;
    var outcomes := Admit(job, prior, w.records).value;
    AdmissionGuarantees(job, prior, w.records);
    RequestIsValid(job.host, job.request);
    var stopAt := StopAt(|job.request.targetSet|, |outcomes|, cut);
    RunEnds(job, |outcomes|, stopAt, cut.reason, outcomes, w);
    var e := Execute(job, prior, cut, w).result.value;
    forall i | 0 <= i < |e.outcomes|
      ensures Carried(job.host, job.request, e.outcomes[i]) <==> (i < |prior| ==> SelfConsistent(job, i, prior[i]))
    {
      if i < |prior| {
        assert e.outcomes[i] == e.outcomes[..|outcomes|][i];
        AdmittedIsCarried(job, prior, outcomes, w.records, i);
      } else {
        GoodIsCarried(job, i, e.outcomes[i]);
      }
    }
    if forall i :: 0 <= i < |prior| ==> SelfConsistent(job, i, prior[i]) {
      EndIsAccepted(job, outcomes, e);
    }
    if CheckEnvelope(job.host, e).Accept? {
      AcceptedEnvelopeCarries(job.host, e);
      forall i | 0 <= i < |prior|
        ensures SelfConsistent(job, i, prior[i])
      {
        assert outcomes[i] == e.outcomes[..|outcomes|][i] == e.outcomes[i];
        SelfConsistentMeansAccepted(job, i, prior[i]);
      }
    }
  }

  lemma SelfConsistentMeansAccepted(job: Job, i: nat, o: Outcome)
    requires i < |job.request.targetSet|
    ensures var enriched := WithCursorContext(job.request.targetSet[i], o);
            SelfConsistent(job, i, o) <==> CheckOutcome(job.host, enriched, enriched.cursorContext).Accept?
  {
    hide CheckOutcome;
  }

  lemma AcceptedEnvelopeCarries(host: Host, e: ResultEnvelope)
    requires CheckEnvelope(host, e).Accept?
    ensures forall i :: 0 <= i < |e.outcomes| ==> CheckOutcome(host, e.outcomes[i], e.outcomes[i].cursorContext).Accept?
  {
    hide CheckOutcome, CheckPublicFields, CheckAuditTrace, CheckTokenCarrier, Aggregate;
    OutcomesAccepted(host, e.outcomes);
  }

  // ------------------------------------------------------ a foreign cursor context

  function Forged(prior: seq<Outcome>, j: nat, foreign: Json): seq<Outcome>
    requires j < |prior|
  {
    prior[j := prior[j].(cursorContext := Some(foreign))]
  }

  lemma CursorContextIsNotChecked(host: Host, o: Outcome, context: Option<Json>, cursor: Option<Json>)
    ensures CheckOutcome(host, o.(cursorContext := context), cursor) == CheckOutcome(host, o, cursor)
  {
    hide CheckPublicFields, CheckSourceTrace, CheckRef, CheckTargetRef, CheckOptionalRef;
  }

  lemma PrefixIgnoresCursorContext(job: Job, o: Outcome, context: Option<Json>, records: seq<DatasetRecord>, i: nat)
    requires i < |job.request.targetSet|
    ensures CheckPrefixItem(job, o.(cursorContext := context), records, i) == CheckPrefixItem(job, o, records, i)
  {
    hide Duplicate, HasRecord, DatasetIdOf;
    forall rec
      ensures ProvesSuccess(job.request, job.request.targetSet[i], o.(cursorContext := context), rec) ==
              ProvesSuccess(job.request, job.request.targetSet[i], o, rec)
    {
    }
  }

  lemma {:induction false} ForgedPriorIsCanonical(job: Job, prior: seq<Outcome>, j: nat, foreign: Json)
    requires j < |prior| <= |job.request.targetSet|
    requires CanonicalPrior(job, prior).Ok?
    ensures CanonicalPrior(job, Forged(prior, j, foreign)).Ok?
    ensures |CanonicalPrior(job, prior).value| == |prior|
    ensures CanonicalPrior(job, Forged(prior, j, foreign)).value ==
            Forged(CanonicalPrior(job, prior).value, j, foreign)
  {
    hide CheckOutcome;
    var n := |prior| - 1;
    var forged := Forged(prior, j, foreign);
    CanonicalLength(job, prior);
    if j < n {
      assert forged[..n] == Forged(prior[..n], j, foreign);
      ForgedPriorIsCanonical(job, prior[..n], j, foreign);
    } else {
      assert forged[..n] == prior[..n];
      CanonicalLength(job, prior[..n]);
      var cursor := job.request.targetSet[n].requestCursor;
      CursorContextIsNotChecked(job.host, prior[n], Some(foreign), cursor);
      CursorContextIsNotChecked(job.host, prior[n], cursor, cursor);
    }
  }

  lemma {:induction false} ForgedPrefixIsAccepted(job: Job, outcomes: seq<Outcome>, j: nat, foreign: Json,
                                                  records: seq<DatasetRecord>)
    requires j < |outcomes| && CheckPrefix(job, outcomes, records).Accept?
    ensures CheckPrefix(job, Forged(outcomes, j, foreign), records).Accept?
  {
    hide CheckPrefixItem;
    var n := |outcomes| - 1;
    var forged := Forged(outcomes, j, foreign);
    if j < n {
      assert forged[..n] == Forged(outcomes[..n], j, foreign);
      ForgedPrefixIsAccepted(job, outcomes[..n], j, foreign, records);
    } else {
      assert forged[..n] == outcomes[..n];
      PrefixIgnoresCursorContext(job, outcomes[n], Some(foreign), records, n);
    }
  }

  lemma ForgedIsAdmitted(job: Job, prior: seq<Outcome>, outcomes: seq<Outcome>, j: nat, foreign: Json,
                         records: seq<DatasetRecord>)
    requires Admit(job, prior, records) == Ok(outcomes) && j < |prior| == |outcomes|
    requires |prior| <= |job.request.targetSet|
    ensures Admit(job, Forged(prior, j, foreign), records) == Ok(Forged(outcomes, j, foreign))
  {
    hide CheckRequest, CanonicalPrior, CheckPosition, CheckPrefix;
    ForgedPriorIsCanonical(job, prior, j, foreign);
    if StartIndex(job.request) != 0 {
      ForgedPrefixIsAccepted(job, outcomes, j, foreign, records);
    }
  }

  /** Whether a run returns an envelope does not depend on the outcomes in front. */
  lemma {:induction false} RunReturnsWhateverIsInFront(job: Job, i: nat, stopAt: int, reason: string, a: seq<Outcome>,
                                                       b: seq<Outcome>, w: World)
    ensures RunFrom(job, i, stopAt, reason, a, w).result.Ok? <==> RunFrom(job, i, stopAt, reason, b, w).result.Ok?
    decreases |job.request.targetSet| - i
  {
    hide Step;
    if i < |job.request.targetSet| && i < stopAt {
      var s := Step(job, i, w);
      if !(s.stop.Some? && i + 1 < |job.request.targetSet|) {
        RunReturnsWhateverIsInFront(job, i + 1, stopAt, reason, a + [s.outcome], b + [s.outcome], s.world);
      }
    }
  }

  /** Every accepted resume with a result among its prior outcomes can be forged:
      with a foreign cursor context put in that outcome, under which the
      result is not valid, the call is accepted all the same, runs, and emits an
      envelope that its own validators refuse. */
  lemma ForeignCursorIsAdmitted(job: Job, prior: seq<Outcome>, cut: Cut, w: World, j: nat, foreign: Json)
    requires Sound(job.host) && Execute(job, prior, cut, w).result.Ok?
    requires j < |prior| && prior[j].resultEnvelope.Some?
    requires var o := prior[j];
             job.host.resultError(o.operation, o.adapterKey, o.targetRef, Some(foreign), o.resultEnvelope.value).Some?
    ensures var ran := Execute(job, Forged(prior, j, foreign), cut, w);
            && ran.result.Ok?
            && ran.world == Execute(job, prior, cut, w).world
            && CheckEnvelope(job.host, ran.result.value).Reject?
  {
    hide Admit, RunFrom, CheckEnvelope, CheckOutcome;
    EmittedEnvelopeIsAccepted(job, prior, cut, w);
    var forged := Forged(prior, j, foreign);
    var outcomes := Admit(job, prior, w.records).value;
    AdmittedAsMany(job, prior, w.records);
    ForgedIsAdmitted(job, prior, outcomes, j, foreign, w.records);
    var stopAt := StopAt(|job.request.targetSet|, |outcomes|, cut);
    RunReturnsWhateverIsInFront(job, |outcomes|, stopAt, cut.reason, outcomes, Forged(outcomes, j, foreign), w);
    RunMovesTheSameWorld(job, |outcomes|, stopAt, cut.reason, outcomes, Forged(outcomes, j, foreign), w);
    EmittedEnvelopeIsAccepted(job, forged, cut, w);
    ForeignIsInconsistent(job, j, forged[j], foreign);
    SelfConsistentMeansAccepted(job, j, forged[j]);
  }

  lemma AdmittedAsMany(job: Job, prior: seq<Outcome>, records: seq<DatasetRecord>)
    requires Admit(job, prior, records).Ok?
    ensures |Admit(job, prior, records).value| == |prior|
  {
    hide CheckRequest, CheckPosition, CheckPrefix, CanonicalPrior;
    CanonicalLength(job, prior);
  }

  lemma {:induction false} RunMovesTheSameWorld(job: Job, i: nat, stopAt: int, reason: string, a: seq<Outcome>,
                                                b: seq<Outcome>, w: World)
    ensures RunFrom(job, i, stopAt, reason, a, w).world == RunFrom(job, i, stopAt, reason, b, w).world
    decreases |job.request.targetSet| - i
  {
    hide Step;
    if i < |job.request.targetSet| && i < stopAt {
      var s := Step(job, i, w);
      if !(s.stop.Some? && i + 1 < |job.request.targetSet|) {
        RunMovesTheSameWorld(job, i + 1, stopAt, reason, a + [s.outcome], b + [s.outcome], s.world);
      }
    }
  }

  lemma ForeignIsInconsistent(job: Job, j: nat, o: Outcome, foreign: Json)
    requires j < |job.request.targetSet| && o.resultEnvelope.Some? && o.cursorContext == Some(foreign)
    requires job.host.resultError(o.operation, o.adapterKey, o.targetRef, Some(foreign), o.resultEnvelope.value).Some?
    ensures !SelfConsistent(job, j, o)
  {
    hide CheckPublicFields, CheckSourceTrace, CheckRef, CheckTargetRef, CheckOptionalRef;
  }

  // -------------------------------------------------- agreement after any call

  lemma AdmissionAgrees(job: Job, prior: seq<Outcome>, outcomes: seq<Outcome>, records: seq<DatasetRecord>)
    requires Bound(job) && Admitted(job, prior, outcomes, records)
    requires |prior| == 0 ==> Untouched(job.request, records)
    ensures Agrees(job.request, outcomes, records)
  {
    hide CheckOutcome, WithCursorContext, HasRecord, ProvesSuccess, DatasetIdOf, Duplicate;
    var r := job.request;
    forall i | 0 <= i < |r.targetSet|
      ensures AgreesOn(r, i, outcomes, records)
    {
      if i < |outcomes| {
        assert CheckPrefixItem(job, outcomes[i], records, i).Accept?;
      }
    }
  }

  lemma {:induction false} RunKeepsAgreement(job: Job, i: nat, stopAt: int, reason: string, outcomes: seq<Outcome>, w: World)
    requires Sound(job.host) && ValidRequest(job.host, job.request) && Bound(job)
    requires |outcomes| == i <= |job.request.targetSet| && Agrees(job.request, outcomes, w.records)
    requires RunFrom(job, i, stopAt, reason, outcomes, w).result.Ok?
    ensures var ran := RunFrom(job, i, stopAt, reason, outcomes, w);
            Agrees(job.request, ran.result.value.outcomes, ran.world.records)
    decreases |job.request.targetSet| - i
  {
    hide Step, Agrees, ResumableResult, TerminalResult, ValidRequest;
    var n := |job.request.targetSet|;
    if i >= n {
      TerminalKeepsOutcomes(job, outcomes);
    } else if i >= stopAt {
      ResumableKeepsOutcomes(job, outcomes, i, reason);
    } else {
      var s := Step(job, i, w);
      var done := outcomes + [s.outcome];
      StepKeepsAgreement(job, outcomes, w);
      if s.stop.Some? && i + 1 < n {
        ResumableKeepsOutcomes(job, done, i + 1, s.stop.value);
      } else {
        RunKeepsAgreement(job, i + 1, stopAt, reason, done, s.world);
      }
    }
  }

  /** After any accepted call of a sink-bound batch, forged priors included, an
      item has a record of this batch exactly when its outcome succeeded, and
      the outcome points to it.  A fresh call needs a sink without records of
      the batch; a resume proves the rest itself. */
  lemma AcceptedCallAgrees(job: Job, prior: seq<Outcome>, cut: Cut, w: World)
    requires Sound(job.host) && Bound(job)
    requires Execute(job, prior, cut, w).result.Ok?
    requires StartIndex(job.request) == 0 ==> Untouched(job.request, w.records)
    ensures var ran := Execute(job, prior, cut, w);
            Agrees(job.request, ran.result.value.outcomes, ran.world.records)
  {
    hide CheckRequest, Admit, RunFrom, ValidRequest, Agrees, Untouched, Admitted;
    var outcomes := Admit(job, prior, w.records).value;
    AdmissionGuarantees(job, prior, w.records);
    AdmittedLength(job, prior, outcomes, w.records);
    RequestIsValid(job.host, job.request);
    AdmissionAgrees(job, prior, outcomes, w.records);
    RunKeepsAgreement(job, |outcomes|, StopAt(|job.request.targetSet|, |outcomes|, cut), cut.reason, outcomes, w);
  }

  lemma AdmittedLength(job: Job, prior: seq<Outcome>, outcomes: seq<Outcome>, records: seq<DatasetRecord>)
    requires Admitted(job, prior, outcomes, records)
    ensures |outcomes| == |prior| == StartIndex(job.request) < |job.request.targetSet|
  {
    hide CheckOutcome, CheckPrefixItem, CheckPosition, WithCursorContext;
  }

  // ------------------------------------------------------------- calls of a resume

  /** The requests for the first occurrences among items `lo` to `hi`. */
  function Requests(items: seq<TargetItem>, lo: nat, hi: nat): seq<TaskRequest>
    requires lo <= hi <= |items|
    decreases hi - lo
  {
    if lo == hi then []
    else ItemRequests(items, lo) + Requests(items, lo + 1, hi)
  }

  lemma {:induction false} RunCalls(job: Job, i: nat, stopAt: int, reason: string, outcomes: seq<Outcome>, w: World)
    requires |outcomes| == i <= |job.request.targetSet|
    requires RunFrom(job, i, stopAt, reason, outcomes, w).result.Ok?
    ensures var ran := RunFrom(job, i, stopAt, reason, outcomes, w);
            && i <= |ran.result.value.outcomes| <= |job.request.targetSet|
            && ran.world.calls == w.calls + Requests(job.request.targetSet, i, |ran.result.value.outcomes|)
    decreases |job.request.targetSet| - i
  {
    hide Step, ItemRequests, ResumableResult, TerminalResult;
    var n := |job.request.targetSet|;
    if i >= n {
      TerminalKeepsOutcomes(job, outcomes);
    } else if i >= stopAt {
      ResumableKeepsOutcomes(job, outcomes, i, reason);
    } else {
      var s := Step(job, i, w);
      var done := outcomes + [s.outcome];
      StepCalls(job, i, w);
      if s.stop.Some? && i + 1 < n {
        ResumableKeepsOutcomes(job, done, i + 1, s.stop.value);
      } else {
        RunCalls(job, i + 1, stopAt, reason, done, s.world);
      }
    }
  }

  /** An accepted resume of a sink-bound batch calls the executor exactly for
      the first occurrences among the items it processes, and none of those
      items has a record of this batch yet. */
  lemma ResumeExecutesNothingRecorded(job: Job, prior: seq<Outcome>, cut: Cut, w: World)
    requires Bound(job) && StartIndex(job.request) > 0
    requires Execute(job, prior, cut, w).result.Ok?
    ensures var ran := Execute(job, prior, cut, w);
            var lo, hi := StartIndex(job.request), |ran.result.value.outcomes|;
            && 0 < lo <= hi <= |job.request.targetSet|
            && ran.world.calls == w.calls + Requests(job.request.targetSet, lo, hi)
            && forall i :: lo <= i < hi ==> !HasRecord(job.request, job.request.targetSet[i], w.records)
  {
    hide CheckRequest, Admit, RunFrom, ValidRequest, HasRecord, Requests, CheckOutcome, CheckPrefixItem;
    var outcomes := Admit(job, prior, w.records).value;
    AdmissionGuarantees(job, prior, w.records);
    RunCalls(job, |outcomes|, StopAt(|job.request.targetSet|, |outcomes|, cut), cut.reason, outcomes, w);
  }

  // --------------------------------------------------------------- resume tokens

  /** A token is accepted only by the batch, the target set and the dataset it
      was issued for, and points strictly inside that target set. */
  lemma TokenBindsItsBatch(job: Job, k: nat, other: Request)
    requires CollisionFree(job.host)
    requires CheckResumeToken(job.host, IssuedToken(job, k), other).Accept?
    ensures other.batchId == job.request.batchId && other.targetSet == job.request.targetSet
    ensures other.datasetSinkRef == job.request.datasetSinkRef && DatasetIdOf(other) == DatasetIdOf(job.request)
    ensures k < |other.targetSet|
  {
    hide CheckTokenCarrier;
  }
}
