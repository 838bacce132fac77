/** The promises of batch execution over whole runs and chains of runs. */
module BatchTheorems {
  import opened Batch
  import opened Wrappers
  import opened BatchRun
  import opened BatchFacts
  import opened BatchFold
  import opened BatchEnvelope

  // ------------------------------------------------- a run follows the fold

  /** `ran` stands where the fold over the first `k` items stands: finished, or
      resumable at item `k` for an acceptable reason. */
  ghost predicate StandsAt(job: Job, ran: Ran, k: nat, w0: World) {
    && k <= |job.request.targetSet|
    && ran.world == Fold(job, k, w0).world
    && if k == |job.request.targetSet|
       then ran.result == Ok(TerminalResult(job, Fold(job, k, w0).outcomes))
       else exists reason :: StoppedFor(job, ran, Fold(job, k, w0).outcomes, k, reason)
  }

  predicate StoppedFor(job: Job, ran: Ran, outcomes: seq<Outcome>, k: nat, reason: string) {
    job.host.rules.ref(reason) && ran.result == ResumableResult(job, outcomes, k, reason)
  }

  /** What a run that stands at `k` returned. */
  lemma StandingResult(job: Job, ran: Ran, k: nat, w0: World)
    requires Sound(job.host) && StandsAt(job, ran, k, w0)
    ensures ran.result.Ok? && ran.result.value.outcomes == Fold(job, k, w0).outcomes
    ensures if k == |job.request.targetSet|
            then ran.result.value.resumeToken.None? && !ran.result.value.status.Resumable?
              && ran.result.value.status == Aggregate(Fold(job, k, w0).outcomes)
            else ran.result.value.status.Resumable? && ran.result.value.resumeToken == Some(IssuedToken(job, k))
  {
    hide Fold, Aggregate, BuildAuditTrace, ResumeTokenId, DatasetIdOf;
    AggregateIsTerminal(Fold(job, k, w0).outcomes);
  }

  /** How far the loop gets from item `i`: to the end, to the cut, or behind the
      first item that interrupts the batch. */
  function Reach(job: Job, i: nat, stopAt: int, w0: World): (k: nat)
    requires i <= |job.request.targetSet|
    ensures i <= k <= |job.request.targetSet|
    ensures i < stopAt && i < |job.request.targetSet| ==> i < k
    decreases |job.request.targetSet| - i
  {
    var n := |job.request.targetSet|;
    if i == n || i >= stopAt then i
    else if Step(job, i, Fold(job, i, w0).world).stop.Some? then i + 1
    else Reach(job, i + 1, stopAt, w0)
  }

  lemma StopCodeIsStopReason(o: Outcome)
    ensures StopCode(o).Some? ==> StopCode(o).value in STOP_BOUNDARY_CODES
  {
  }

  lemma {:induction false} RunFollowsFold(job: Job, i: nat, stopAt: int, reason: string, w0: World)
    requires Sound(job.host) && job.host.rules.ref(reason) && i <= |job.request.targetSet|
    ensures StandsAt(job, RunFrom(job, i, stopAt, reason, Fold(job, i, w0).outcomes, Fold(job, i, w0).world),
                     Reach(job, i, stopAt, w0), w0)
    decreases |job.request.targetSet| - i
  {
    hide Settle, Publish, BuildAuditTrace, StopCode, DatasetIdOf, ResumeTokenId;
    var n := |job.request.targetSet|;
    var f := Fold(job, i, w0);
    if i < n && i < stopAt {
      var s := Step(job, i, f.world);
      assert Fold(job, i + 1, w0) == Folded(f.outcomes + [s.outcome], s.world);
      if s.stop.Some? {
        StepStopIsStopReason(job, i, f.world);
        assert i + 1 < n ==>
          StoppedFor(job, RunFrom(job, i, stopAt, reason, f.outcomes, f.world), Fold(job, i + 1, w0).outcomes, i + 1,
                     s.stop.value);
      } else {
        RunFollowsFold(job, i + 1, stopAt, reason, w0);
      }
    } else if i < n {
      assert StoppedFor(job, RunFrom(job, i, stopAt, reason, f.outcomes, f.world), f.outcomes, i, reason);
    }
  }

  lemma StepStopIsStopReason(job: Job, i: nat, w: World)
    requires i < |job.request.targetSet|
    ensures Step(job, i, w).stop.Some? ==> Step(job, i, w).stop.value in STOP_BOUNDARY_CODES
  {
    hide Settle, Publish, StopCode;
    if !Duplicate(job.request.targetSet, i) {
      var calls := w.calls + [TaskRequestFor(job.request.targetSet[i])];
      StopCodeIsStopReason(Settle(job, job.request.targetSet[i], job.host.reply(calls), w.records).outcome);
    }
  }

  /** The caller's cut ends the loop, before the end and before any item that
      interrupts the batch. */
  predicate CutByCaller(job: Job, i: nat, stopAt: int, w0: World)
    requires i <= |job.request.targetSet|
    decreases |job.request.targetSet| - i
  {
    && i < |job.request.targetSet|
    && (i >= stopAt
        || (Step(job, i, Fold(job, i, w0).world).stop.None? && CutByCaller(job, i + 1, stopAt, w0)))
  }

  /** The reason for a cut is checked only when the cut is reached: a run that
      ends there with an unacceptable reason returns an error although its calls
      and records remain; every other run returns an envelope. */
  lemma {:induction false} RunReturnsExactly(job: Job, i: nat, stopAt: int, reason: string, w0: World)
    requires Sound(job.host) && i <= |job.request.targetSet|
    ensures var ran := RunFrom(job, i, stopAt, reason, Fold(job, i, w0).outcomes, Fold(job, i, w0).world);
            && ran.world == Fold(job, Reach(job, i, stopAt, w0), w0).world
            && (ran.result.Ok? <==> job.host.rules.ref(reason) || !CutByCaller(job, i, stopAt, w0))
    decreases |job.request.targetSet| - i
  {
    hide Step, ResumableResult, TerminalResult, Lawful, Trusted;
    var n := |job.request.targetSet|;
    var f := Fold(job, i, w0);
    if i < n && i < stopAt {
      var s := Step(job, i, f.world);
      assert Fold(job, i + 1, w0) == Folded(f.outcomes + [s.outcome], s.world);
      if s.stop.Some? {
        StepStopIsRef(job, i, f.world);
        ResumableExactly(job, f.outcomes + [s.outcome], i + 1, s.stop.value);
      } else {
        RunReturnsExactly(job, i + 1, stopAt, reason, w0);
      }
    } else {
      ResumableExactly(job, f.outcomes, i, reason);
    }
  }

  lemma ResumableExactly(job: Job, outcomes: seq<Outcome>, next: nat, reason: string)
    requires Sound(job.host)
    ensures ResumableResult(job, outcomes, next, reason).Ok? <==> job.host.rules.ref(reason)
  {
    hide BuildAuditTrace, DatasetIdOf, ResumeTokenId, Trusted;
  }

  lemma StepStopIsRef(job: Job, i: nat, w: World)
    requires Sound(job.host) && i < |job.request.targetSet| && Step(job, i, w).stop.Some?
    ensures job.host.rules.ref(Step(job, i, w).stop.value)
  {
    hide Step, Trusted;
    StepStopIsStopReason(job, i, w);
  }

  // --------------------------------------------------- what the fold leaves

  lemma {:induction false} FoldIsGood(job: Job, n: nat, w0: World)
    requires Sound(job.host) && ValidRequest(job.host, job.request) && n <= |job.request.targetSet|
    ensures forall i :: 0 <= i < n ==> GoodOutcome(job, i, Fold(job, n, w0).outcomes[i])
    decreases n
  {
    hide GoodOutcome, Step;
    if n > 0 {
      FoldIsGood(job, n - 1, w0);
      StepIsGood(job, n - 1, Fold(job, n - 1, w0).world);
    }
  }

  /** The items of a target set that are not duplicates of an earlier one. */
  function FirstOccurrences(items: seq<TargetItem>, n: nat): seq<TaskRequest>
    requires n <= |items|
  {
    if n == 0 then []
    else FirstOccurrences(items, n - 1) + ItemRequests(items, n - 1)
  }

  /** The executor is called once for each first occurrence of a dedup key, in
      target order, whatever it answers. */
  lemma {:induction false} CallsAreFirstOccurrences(job: Job, n: nat, w0: World)
    requires n <= |job.request.targetSet|
    ensures Fold(job, n, w0).world.calls == w0.calls + FirstOccurrences(job.request.targetSet, n)
    decreases n
  {
    hide Step, ItemRequests;
    if n > 0 {
      CallsAreFirstOccurrences(job, n - 1, w0);
      StepCalls(job, n - 1, Fold(job, n - 1, w0).world);
    }
  }

  // ---------------------------------------------------- sink and outcomes agree

  /** An item has a record of this batch exactly when its outcome succeeded, and
      then it points to such a record. */
  predicate Agrees(r: Request, outcomes: seq<Outcome>, records: seq<DatasetRecord>) {
    forall i :: 0 <= i < |r.targetSet| ==> AgreesOn(r, i, outcomes, records)
  }

  predicate AgreesOn(r: Request, i: nat, outcomes: seq<Outcome>, records: seq<DatasetRecord>)
    requires i < |r.targetSet|
  {
    if i < |outcomes| && outcomes[i].status.Succeeded?
    then exists k :: 0 <= k < |records| && ProvesSuccess(r, r.targetSet[i], outcomes[i], records[k])
    else !HasRecord(r, r.targetSet[i], records)
  }

  /** No record of this batch belongs to an item without being the one its
      outcome points to. */
  predicate Sole(r: Request, outcomes: seq<Outcome>, records: seq<DatasetRecord>) {
    forall i, k :: 0 <= i < |r.targetSet| && 0 <= k < |records| && RecordOf(r, r.targetSet[i], records[k]) ==>
      i < |outcomes| && ProvesSuccess(r, r.targetSet[i], outcomes[i], records[k])
  }

  lemma NewRecordIsOfItem(job: Job, i: nat, k: nat, rec: DatasetRecord)
    requires ValidTargets(job.host, job.request.targetSet)
    requires i < |job.request.targetSet| && k < |job.request.targetSet|
    requires RecordOf(job.request, job.request.targetSet[i], rec) && RecordOf(job.request, job.request.targetSet[k], rec)
    ensures i == k
  {
  }

  lemma StepKeepsAgreement(job: Job, outcomes: seq<Outcome>, w: World)
    requires Sound(job.host) && ValidRequest(job.host, job.request) && Bound(job)
    requires |outcomes| < |job.request.targetSet|
    requires Agrees(job.request, outcomes, w.records)
    ensures var s := Step(job, |outcomes|, w);
            Agrees(job.request, outcomes + [s.outcome], s.world.records)
  {
    hide GoodOutcome, Step, WriteRefusal, ValidItem, DatasetIdOf;
    var r := job.request;
    var k := |outcomes|;
    var s := Step(job, k, w);
    StepIsGood(job, k, w);
    var before, after := w.records, s.world.records;
    forall i | 0 <= i < |r.targetSet|
      ensures AgreesOn(r, i, outcomes + [s.outcome], after)
    {
      assert AgreesOn(r, i, outcomes, before);
      assert forall j :: 0 <= j < |before| ==> after[j] == before[j];
      if i != k && |after| > |before| && RecordOf(r, r.targetSet[i], after[|before|]) {
        NewRecordIsOfItem(job, i, k, after[|before|]);
      }
    }
  }

  lemma StepKeepsSole(job: Job, outcomes: seq<Outcome>, w: World)
    requires Sound(job.host) && ValidRequest(job.host, job.request) && Bound(job)
    requires |outcomes| < |job.request.targetSet|
    requires Sole(job.request, outcomes, w.records)
    ensures var s := Step(job, |outcomes|, w);
            Sole(job.request, outcomes + [s.outcome], s.world.records)
  {
    hide GoodOutcome, Step, WriteRefusal, ValidItem, DatasetIdOf;
    var r := job.request;
    var k := |outcomes|;
    var s := Step(job, k, w);
    StepIsGood(job, k, w);
    var before, after := w.records, s.world.records;
    forall i, j | 0 <= i < |r.targetSet| && 0 <= j < |after| && RecordOf(r, r.targetSet[i], after[j])
      ensures i <= k && ProvesSuccess(r, r.targetSet[i], (outcomes + [s.outcome])[i], after[j])
    {
      if j < |before| {
        assert after[j] == before[j];
      } else {
        NewRecordIsOfItem(job, i, k, after[j]);
      }
    }
  }

  /** The batch has left no record in its dataset yet. */
  predicate Untouched(r: Request, records: seq<DatasetRecord>) {
    forall i :: 0 <= i < |r.targetSet| ==> !HasRecord(r, r.targetSet[i], records)
  }

  lemma {:induction false} FoldAgrees(job: Job, n: nat, w0: World)
    requires Sound(job.host) && ValidRequest(job.host, job.request) && Bound(job) && n <= |job.request.targetSet|
    requires Untouched(job.request, w0.records)
    ensures Agrees(job.request, Fold(job, n, w0).outcomes, Fold(job, n, w0).world.records)
    ensures Sole(job.request, Fold(job, n, w0).outcomes, Fold(job, n, w0).world.records)
    decreases n
  {
    hide Agrees, Sole, Step;
    if n == 0 {
      UntouchedAgrees(job.request, w0.records);
    } else {
      FoldAgrees(job, n - 1, w0);
      StepKeepsAgreement(job, Fold(job, n - 1, w0).outcomes, Fold(job, n - 1, w0).world);
      StepKeepsSole(job, Fold(job, n - 1, w0).outcomes, Fold(job, n - 1, w0).world);
    }
  }

  lemma UntouchedAgrees(r: Request, records: seq<DatasetRecord>)
    requires Untouched(r, records)
    ensures Agrees(r, [], records) && Sole(r, [], records)
  {
  }

  // ------------------------------------------------------ resuming is accepted

  lemma {:induction false} CanonicalPriorIsItself(job: Job, outcomes: seq<Outcome>)
    requires |outcomes| <= |job.request.targetSet|
    requires forall i :: 0 <= i < |outcomes| ==> GoodOutcome(job, i, outcomes[i])
    ensures CanonicalPrior(job, outcomes) == Ok(outcomes)
  {
    hide CheckOutcome;
    if outcomes != [] {
      var n := |outcomes| - 1;
      CanonicalPriorIsItself(job, outcomes[..n]);
      assert GoodOutcome(job, n, outcomes[n]);
      assert WithCursorContext(job.request.targetSet[n], outcomes[n]) == outcomes[n];
      assert outcomes[..n] + [outcomes[n]] == outcomes;
    }
  }

  lemma GoodOutcomeResumes(job: Job, i: nat, outcomes: seq<Outcome>, records: seq<DatasetRecord>)
    requires Sound(job.host) && i < |outcomes| <= |job.request.targetSet|
    requires GoodOutcome(job, i, outcomes[i])
    requires job.request.datasetSinkRef.Some? ==> job.bound && DatasetIdOf(job.request).Some?
    requires job.request.datasetSinkRef.Some? ==> AgreesOn(job.request, i, outcomes, records)
    ensures CheckPrefixItem(job, outcomes[i], records, i).Accept?
  {
    hide DatasetIdOf, Duplicate, CheckPublicFields;
  }

  lemma {:induction false} PrefixResumes(job: Job, outcomes: seq<Outcome>, n: nat, records: seq<DatasetRecord>)
    requires n <= |outcomes| <= |job.request.targetSet|
    requires forall i :: 0 <= i < n ==> CheckPrefixItem(job, outcomes[i], records, i).Accept?
    ensures CheckPrefix(job, outcomes[..n], records).Accept?
    decreases n
  {
    hide CheckPrefixItem;
    if n > 0 {
      PrefixResumes(job, outcomes, n - 1, records);
      assert outcomes[..n][..n - 1] == outcomes[..n - 1];
    }
  }

  /** The same job with another resume token. */
  function WithToken(job: Job, token: Option<ResumeToken>): Job {
    job.(request := job.request.(resumeToken := token))
  }

  lemma TokenDoesNotMatter(job: Job, token: Option<ResumeToken>, i: nat, w: World)
    requires i < |job.request.targetSet|
    ensures Step(WithToken(job, token), i, w) == Step(job, i, w)
  {
    hide CheckOutcome, CheckSourceTrace, CheckRecord;
    var items := job.request.targetSet;
    assert Duplicate(WithToken(job, token).request.targetSet, i) == Duplicate(items, i);
    if !Duplicate(items, i) {
      var e := job.host.reply(w.calls + [TaskRequestFor(items[i])]);
      SettleIgnoresToken(job, token, items[i], e, w.records);
    }
  }

  lemma SettleIgnoresToken(job: Job, token: Option<ResumeToken>, item: TargetItem, e: TaskEnvelope,
                           records: seq<DatasetRecord>)
    ensures Settle(WithToken(job, token), item, e, records) == Settle(job, item, e, records)
  {
    hide CheckOutcome, CheckSourceTrace, WriteRefusal, RefusalDetails, Publish;
  }

  lemma {:induction false} FoldIgnoresToken(job: Job, token: Option<ResumeToken>, n: nat, w: World)
    requires n <= |job.request.targetSet|
    ensures Fold(WithToken(job, token), n, w) == Fold(job, n, w)
    decreases n
  {
    hide Step;
    if n > 0 {
      FoldIgnoresToken(job, token, n - 1, w);
      TokenDoesNotMatter(job, token, n - 1, Fold(job, n - 1, w).world);
    }
  }

  lemma {:induction false} ReachIgnoresToken(job: Job, token: Option<ResumeToken>, i: nat, stopAt: int, w: World)
    requires i <= |job.request.targetSet|
    ensures Reach(WithToken(job, token), i, stopAt, w) == Reach(job, i, stopAt, w)
    decreases |job.request.targetSet| - i
  {
    hide Step;
    if i < |job.request.targetSet| && i < stopAt {
      FoldIgnoresToken(job, token, i, w);
      TokenDoesNotMatter(job, token, i, Fold(job, i, w).world);
      ReachIgnoresToken(job, token, i + 1, stopAt, w);
    }
  }

  /** A fresh request on a world it can run in: accepted, without a token, with
      a sink at hand when it names one and no record of its own yet. */
  ghost predicate Runnable(job: Job, w: World) {
    && Sound(job.host)
    && job.request.resumeToken.None?
    && CheckRequest(job.host, job.request).Accept?
    && (job.request.datasetSinkRef.Some? ==> job.bound && Untouched(job.request, w.records))
  }

  lemma RequestWithToken(job: Job, k: nat)
    requires Sound(job.host) && CheckRequest(job.host, job.request).Accept? && job.request.resumeToken.None?
    requires k < |job.request.targetSet|
    ensures CheckRequest(job.host, WithToken(job, Some(IssuedToken(job, k))).request).Accept?
  {
    hide CheckTargetSet, CheckRefs, CheckResumeToken, IssuedToken, ValidRequest;
    RequestIsValid(job.host, job.request);
    IssuedTokenIsAccepted(job, k);
    TokenCheckIgnoresToken(job, Some(IssuedToken(job, k)), IssuedToken(job, k));
  }

  lemma TokenCheckIgnoresToken(job: Job, token: Option<ResumeToken>, t: ResumeToken)
    ensures CheckResumeToken(job.host, t, WithToken(job, token).request) == CheckResumeToken(job.host, t, job.request)
  {
    hide CheckTokenCarrier;
  }

  /** Whatever a run hands out, the next run takes: the token Core issues behind
      `k` items, the outcomes of those items and the sink they left behind are
      all accepted. */
  lemma ResumeIsAdmitted(job: Job, k: nat, w0: World)
    requires Runnable(job, w0) && k < |job.request.targetSet|
    ensures var f := Fold(job, k, w0);
            Admit(WithToken(job, Some(IssuedToken(job, k))), f.outcomes, f.world.records) == Ok(f.outcomes)
  {
    hide CheckRequest, CheckPosition, CheckPrefix, CanonicalPrior, Fold, ValidRequest, Untouched;
    var next := WithToken(job, Some(IssuedToken(job, k)));
    RequestWithToken(job, k);
    PriorIsAdmitted(job, k, w0);
  }

  lemma PriorIsAdmitted(job: Job, k: nat, w0: World)
    requires Runnable(job, w0) && k < |job.request.targetSet|
    ensures var f := Fold(job, k, w0);
            var next := WithToken(job, Some(IssuedToken(job, k)));
            && CanonicalPrior(next, f.outcomes) == Ok(f.outcomes)
            && CheckPosition(next, f.world.records, k).Accept?
            && CheckPrefix(next, f.outcomes, f.world.records).Accept?
  {
    hide CheckRequest, CheckPrefix, CheckPosition, CanonicalPrior, Fold, ValidRequest, CheckPrefixItem, GoodOutcome,
         ProvesSuccess,
         HasRecord, IssuedToken, DatasetIdOf;
    var token := Some(IssuedToken(job, k));
    var next := WithToken(job, token);
    RequestIsValid(job.host, job.request);
    RequestWithToken(job, k);
    RequestIsValid(job.host, next.request);
    DatasetIdIsAccepted(job.host, job.request);
    DatasetIdIsAccepted(job.host, next.request);
    FoldIgnoresToken(job, token, k, w0);
    var f := Fold(next, k, w0);
    FoldIsGood(next, k, w0);
    CanonicalPriorIsItself(next, f.outcomes);
    if job.request.datasetSinkRef.Some? {
      UntouchedIgnoresToken(job, token, w0.records);
      FoldAgrees(next, k, w0);
    }
    forall i | 0 <= i < k
      ensures CheckPrefixItem(next, f.outcomes[i], f.world.records, i).Accept?
    {
      GoodOutcomeResumes(next, i, f.outcomes, f.world.records);
    }
    PositionResumes(next, f.outcomes, f.world.records);
    PrefixResumes(next, f.outcomes, k, f.world.records);
    assert f.outcomes[..k] == f.outcomes;
  }

  lemma PositionResumes(job: Job, outcomes: seq<Outcome>, records: seq<DatasetRecord>)
    requires job.request.datasetSinkRef.Some? ==>
               job.bound && DatasetIdOf(job.request).Some? && Agrees(job.request, outcomes, records)
    ensures CheckPosition(job, records, |outcomes|).Accept?
  {
    hide DatasetIdOf, HasRecord, ProvesSuccess;
    var r := job.request;
    if r.datasetSinkRef.Some? {
      forall i | |outcomes| <= i < |r.targetSet|
        ensures !HasRecord(r, r.targetSet[i], records)
      {
        assert AgreesOn(r, i, outcomes, records);
      }
    }
  }

  lemma UntouchedIgnoresToken(job: Job, token: Option<ResumeToken>, records: seq<DatasetRecord>)
    requires Untouched(job.request, records)
    ensures Untouched(WithToken(job, token).request, records)
  {
    var r, r' := job.request, WithToken(job, token).request;
    forall i | 0 <= i < |r'.targetSet|
      ensures !HasRecord(r', r'.targetSet[i], records)
    {
      assert !HasRecord(r, r.targetSet[i], records);
      assert forall k :: 0 <= k < |records| ==>
        RecordOf(r', r'.targetSet[i], records[k]) == RecordOf(r, r.targetSet[i], records[k]);
    }
  }

  // ----------------------------------------------------------- resume equivalence

  /** Runs the job and keeps resuming it with the token, the outcomes and the
      sink of the run before, one cut after the other, until a run finishes. */
  function Chain(job: Job, token: Option<ResumeToken>, prior: seq<Outcome>, cuts: seq<Cut>, w: World): Ran
    requires cuts != []
    decreases |cuts|
  {
    var ran := Execute(WithToken(job, token), prior, cuts[0], w);
    if |cuts| == 1 || ran.result.Err? || ran.result.value.resumeToken.None? then ran
    else Chain(job, ran.result.value.resumeToken, ran.result.value.outcomes, cuts[1..], ran.world)
  }

  /** The item a chain of cuts reaches from item `k`. */
  function ChainReach(job: Job, k: nat, cuts: seq<Cut>, w0: World): (reached: nat)
    requires k <= |job.request.targetSet|
    ensures k <= reached <= |job.request.targetSet|
    decreases |cuts|
  {
    if cuts == [] || k == |job.request.targetSet| then k
    else ChainReach(job, Reach(job, k, StopAt(|job.request.targetSet|, k, cuts[0]), w0), cuts[1..], w0)
  }

  lemma RunFromFold(job: Job, token: Option<ResumeToken>, k: nat, cut: Cut, w0: World)
    requires Runnable(job, w0) && k < |job.request.targetSet| && job.host.rules.ref(cut.reason)
    requires if token.None? then k == 0 else token == Some(IssuedToken(job, k))
    ensures StandsAt(job, Execute(WithToken(job, token), Fold(job, k, w0).outcomes, cut, Fold(job, k, w0).world),
                     Reach(job, k, StopAt(|job.request.targetSet|, k, cut), w0), w0)
  {
    hide Fold, CheckRequest, RunFrom, Reach, Untouched, CanonicalPrior;
    var next := WithToken(job, token);
    var f := Fold(job, k, w0);
    var stopAt := StopAt(|job.request.targetSet|, k, cut);
    if token.None? {
      assert next == job;
      assert Admit(next, f.outcomes, f.world.records) == Ok(f.outcomes) by { FreshIsAdmitted(job, w0); }
    } else {
      ResumeIsAdmitted(job, k, w0);
    }
    FoldIgnoresToken(job, token, k, w0);
    RunFollowsFold(next, k, stopAt, cut.reason, w0);
    ReachIgnoresToken(job, token, k, stopAt, w0);
    StandsAtIgnoresToken(job, token, Execute(next, f.outcomes, cut, f.world), Reach(job, k, stopAt, w0), w0);
  }

  lemma FreshIsAdmitted(job: Job, w0: World)
    requires Runnable(job, w0)
    ensures Fold(job, 0, w0) == Folded([], w0) && Admit(job, [], w0.records) == Ok([])
  {
    hide CheckRequest, Untouched;
    assert CanonicalPrior(job, []) == Ok([]);
  }

  lemma StandsAtIgnoresToken(job: Job, token: Option<ResumeToken>, ran: Ran, k: nat, w0: World)
    requires StandsAt(WithToken(job, token), ran, k, w0)
    ensures StandsAt(job, ran, k, w0)
  {
    hide Fold;
    FoldIgnoresToken(job, token, k, w0);
    var next := WithToken(job, token);
    var os := Fold(job, k, w0).outcomes;
    assert TerminalResult(next, os) == TerminalResult(job, os);
    if k < |job.request.targetSet| {
      var reason :| StoppedFor(next, ran, os, k, reason);
      assert ResumableResult(next, os, k, reason) == ResumableResult(job, os, k, reason);
      assert StoppedFor(job, ran, os, k, reason);
    }
  }

  lemma {:induction false} ChainFollowsFold(job: Job, token: Option<ResumeToken>, k: nat, cuts: seq<Cut>, w0: World)
    requires Runnable(job, w0) && k < |job.request.targetSet| && cuts != []
    requires forall c :: c in cuts ==> job.host.rules.ref(c.reason)
    requires if token.None? then k == 0 else token == Some(IssuedToken(job, k))
    ensures StandsAt(job, Chain(job, token, Fold(job, k, w0).outcomes, cuts, Fold(job, k, w0).world),
                     ChainReach(job, k, cuts, w0), w0)
    decreases |cuts|
  {
    hide CheckRequest, Untouched, Fold, Execute, TerminalResult, Reach, IssuedToken;
    var n := |job.request.targetSet|;
    var f := Fold(job, k, w0);
    RunFromFold(job, token, k, cuts[0], w0);
    var ran := Execute(WithToken(job, token), f.outcomes, cuts[0], f.world);
    var next := Reach(job, k, StopAt(n, k, cuts[0]), w0);
    StandingResult(job, ran, next, w0);
    if next < n && |cuts| > 1 {
      ChainFollowsFold(job, ran.result.value.resumeToken, next, cuts[1..], w0);
    }
  }

  lemma {:induction false} ChainProgresses(job: Job, k: nat, cuts: seq<Cut>, w0: World)
    requires k <= |job.request.targetSet|
    requires forall c :: c in cuts ==> c.after.None? || c.after.value > 0
    ensures ChainReach(job, k, cuts, w0) >= if k + |cuts| < |job.request.targetSet| then k + |cuts| else |job.request.targetSet|
    decreases |cuts|
  {
    hide Step, Fold;
    if cuts != [] && k < |job.request.targetSet| {
      ChainProgresses(job, Reach(job, k, StopAt(|job.request.targetSet|, k, cuts[0]), w0), cuts[1..], w0);
    }
  }

  /** Resume equivalence.  However a batch is cut into runs, by the caller or by
      items that interrupt it, the chain of runs stands where one fold over the
      processed items stands: the same executor calls in the same order, the
      same outcomes and the same sink records.  A chain that finishes has the
      status of the whole fold, and a chain that moves on at every cut finishes
      after at most as many runs as there are items. */
  lemma ResumeEquivalence(job: Job, cuts: seq<Cut>, w0: World)
    requires Runnable(job, w0) && cuts != []
    requires forall c :: c in cuts ==> job.host.rules.ref(c.reason)
    ensures var ran := Chain(job, None, [], cuts, w0);
            var n := |job.request.targetSet|;
            && ran.result.Ok?
            && var e := ran.result.value;
            && var k := |e.outcomes|;
            && k <= n
            && Folded(e.outcomes, ran.world) == Fold(job, k, w0)
            && ran.world.calls == w0.calls + FirstOccurrences(job.request.targetSet, k)
            && (e.status.Resumable? <==> k < n)
            && (k == n ==> e.status == Aggregate(Fold(job, n, w0).outcomes))
            && ((forall c :: c in cuts ==> c.after.None? || c.after.value > 0) && |cuts| >= n ==> k == n)
  {
    hide Fold, Chain, ValidRequest, Aggregate, BuildAuditTrace;
    RequestIsValid(job.host, job.request);
    assert 0 < |job.request.targetSet| by { TargetSetIsNotEmpty(job); }
    FreshIsAdmitted(job, w0);
    ChainFollowsFold(job, None, 0, cuts, w0);
    var k := ChainReach(job, 0, cuts, w0);
    CallsAreFirstOccurrences(job, k, w0);
    StandingResult(job, Chain(job, None, [], cuts, w0), k, w0);
    if forall c :: c in cuts ==> c.after.None? || c.after.value > 0 {
      ChainProgresses(job, 0, cuts, w0);
    }
  }

  lemma TargetSetIsNotEmpty(job: Job)
    requires CheckRequest(job.host, job.request).Accept?
    ensures job.request.targetSet != []
  {
  }

  /** Sink and outcomes agree at every point of every chain of runs that starts
      without records of the batch, and no other record of the batch appears. */
  lemma ChainAgrees(job: Job, cuts: seq<Cut>, w0: World)
    requires Runnable(job, w0) && Bound(job) && cuts != []
    requires forall c :: c in cuts ==> job.host.rules.ref(c.reason)
    ensures var ran := Chain(job, None, [], cuts, w0);
            && ran.result.Ok?
            && Agrees(job.request, ran.result.value.outcomes, ran.world.records)
            && Sole(job.request, ran.result.value.outcomes, ran.world.records)
  {
    hide Fold, Chain, ValidRequest, Aggregate, BuildAuditTrace, Agrees, Sole, FirstOccurrences, Untouched;
    RequestIsValid(job.host, job.request);
    ResumeEquivalence(job, cuts, w0);
    FoldAgrees(job, |Chain(job, None, [], cuts, w0).result.value.outcomes|, w0);
  }

  /** Every run of every chain returns an envelope its own validator accepts. */
  lemma ChainEnvelopesAreAccepted(job: Job, cuts: seq<Cut>, w0: World)
    requires Runnable(job, w0) && cuts != []
    requires forall c :: c in cuts ==> job.host.rules.ref(c.reason)
    ensures var ran := Chain(job, None, [], cuts, w0);
            ran.result.Ok? && CheckEnvelope(job.host, ran.result.value).Accept?
  {
    hide Fold, Chain, ValidRequest, CheckEnvelope, GoodOutcome, Carried, TerminalResult, ResumableResult, Untouched,
         CheckRequest;
    RequestIsValid(job.host, job.request);
    TargetSetIsNotEmpty(job);
    FreshIsAdmitted(job, w0);
    ChainFollowsFold(job, None, 0, cuts, w0);
    var k := ChainReach(job, 0, cuts, w0);
    var os := Fold(job, k, w0).outcomes;
    FoldIsGood(job, k, w0);
    forall i | 0 <= i < |os|
      ensures Carried(job.host, job.request, os[i])
    {
      GoodIsCarried(job, i, os[i]);
    }
    if k == |job.request.targetSet| {
      TerminalIsAccepted(job, os);
    } else {
      var reason :| StoppedFor(job, Chain(job, None, [], cuts, w0), os, k, reason);
      ResumableIsAccepted(job, os, reason);
    }
  }

  lemma GoodIsCarried(job: Job, i: nat, o: Outcome)
    requires i < |job.request.targetSet| && GoodOutcome(job, i, o)
    ensures Carried(job.host, job.request, o)
  {
    hide CheckOutcome, Duplicate;
  }
}
