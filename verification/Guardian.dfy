/** The guarded merge: a check-then-act protocol against a remote pull request
    that others may change before every call. */
module Guardian {
  import opened IntegrationContract
  import opened IntegrationText
  import opened IntegrationEdit
  import opened IntegrationSection

  // ------------------------------------------------------------------ verdicts

  datatype Json = Null | Flag(b: bool) | Number(n: int) | Text(s: string) | Compound

  /** A verdict as it is kept in the guardian's state file. */
  datatype Stored =
    | NoObject
    | Object(schema: Json, number: Json, head: Json, fingerprint: Json, verdict: Json, safe: Json, summary: Json,
             reviewedAt: Json)

  datatype Verdict = Verdict(approve: bool, safe: bool)

  datatype BodyOption = NoBody | Body(lines: Lines)

  predicate FingerprintFits(fingerprint: Lines -> string, stored: Stored, body: BodyOption, requireBodyBound: bool)
    requires stored.Object?
  {
    match body
    case Body(lines) => if stored.schema == Number(2) then stored.fingerprint == Text(fingerprint(lines)) else !requireBodyBound
    case NoBody => stored.schema == Number(2) ==> stored.fingerprint.Text?
  }

  /** Whether a stored verdict may be reused. */
  predicate ValidPayload(fingerprint: Lines -> string, stored: Stored, number: int, head: string, body: BodyOption,
                         requireBodyBound: bool)
  {
    && stored.Object?
    && (stored.schema == Number(1) || stored.schema == Number(2))
    && stored.number == Number(number)
    && stored.head == Text(head)
    && FingerprintFits(fingerprint, stored, body, requireBodyBound)
    && (stored.verdict == Text("APPROVE") || stored.verdict == Text("REQUEST_CHANGES"))
    && stored.safe.Flag? && stored.summary.Text? && stored.reviewedAt.Text?
  }

  function BuildPayload(fingerprint: Lines -> string, number: int, head: string, body: Lines, verdict: Verdict,
                        summary: string, now: string): Stored
  {
    Object(Number(2), Number(number), Text(head), Text(fingerprint(body)),
           Text(if verdict.approve then "APPROVE" else "REQUEST_CHANGES"), Flag(verdict.safe), Text(summary), Text(now))
  }

  ghost predicate Injective(fingerprint: Lines -> string) {
    forall a, b :: fingerprint(a) == fingerprint(b) ==> a == b
  }

  /** A saved verdict is reused for exactly the pull request, head and
      description it was given for. */
  lemma SavedVerdictIsReusedExactly(fingerprint: Lines -> string, number: int, head: string, body: Lines, verdict: Verdict,
                                    summary: string, now: string, number': int, head': string, body': Lines,
                                    requireBodyBound: bool)
    requires Injective(fingerprint)
    ensures ValidPayload(fingerprint, BuildPayload(fingerprint, number, head, body, verdict, summary, now), number', head',
                         Body(body'), requireBodyBound)
       <==> number == number' && head == head' && body == body'
  {
    var saved := BuildPayload(fingerprint, number, head, body, verdict, summary, now);
    assert saved.verdict == Text("APPROVE") || saved.verdict == Text("REQUEST_CHANGES");
    assert fingerprint(body) == fingerprint(body') <==> body == body';
  }

  // --------------------------------------------------------------- the outside

  datatype Pr = Pr(head: string, body: Lines, draft: bool)

  datatype ReadAnswer = ReadFails | Seen(pr: Pr)
  datatype ReviewAnswer = ReviewFails | ReviewCrashes | Answers(verdict: Verdict)
  datatype GateAnswer = GatePasses | GateRefuses | GateFails
  datatype ChecksAnswer = ChecksUnreadable | ChecksRead(passing: bool)
  datatype IssueState = IssueUnreadable | Issue(canonical: Payload)

  /** Everything the guardian does not control: what others do to the pull
      request before the n-th call, and what the n-th call answers. */
  datatype World = World(
    number: int,
    stored: Stored,
    fingerprint: Lines -> string,
    forms: RefForms,
    others: (nat, Pr) -> Pr,
    pushed: string -> nat,
    readFails: nat -> bool,
    writeFails: nat -> bool,
    review: (nat, Pr, string) -> ReviewAnswer,
    postFails: nat -> bool,
    artifactsApply: Lines -> bool,
    artifacts: (nat, Pr) -> GateAnswer,
    issue: (nat, Pr) -> IssueState,
    live: (nat, Payload) -> bool,
    checks: nat -> ChecksAnswer,
    accepts: nat -> bool
  )

  /** A head that was replaced never comes back: each head has its own time. */
  ghost predicate Forward(w: World) {
    forall n: nat, p: Pr :: Ahead(w, p.head, w.others(n, p).head)
  }

  predicate Ahead(w: World, older: string, newer: string) {
    newer == older || w.pushed(newer) > w.pushed(older)
  }

  /** Nobody else edits the pull request, and reading and writing it succeed. */
  ghost predicate Quiet(w: World) {
    && (forall n, p :: w.others(n, p) == p)
    && (forall n :: !w.readFails(n))
    && (forall n :: !w.writeFails(n))
  }

  /** What a run does and learns; answers are noted with the number of the call
      that gave them, and writes with the text they replaced. */
  datatype Event =
    | Read(pr: Pr)
    | Wrote(body: Lines, replaced: Lines)
    | ReviewSaved(call: nat, meta: Pr, tree: string, verdict: Verdict)
    | ReviewCrashed(call: nat, meta: Pr)
    | ArtifactsPassed(call: nat, pr: Pr)
    | GatePassed(call: nat, pr: Pr, issue: Payload)
    | ChecksPassed(call: nat)
    | MergeIssued(head: string)

  type Log = seq<Event>

  // ------------------------------------------------------------ the gate itself

  predicate RequiresRecheck(body: Lines) {
    var p := PrPayload(body);
    p != map[] && Value(p, Gate) == CHECK_REQUIRED
  }

  /** The integration gate on a description, with the recheck demanded. */
  predicate GateHolds(forms: RefForms, issue: IssueState, body: Lines) {
    && issue.Issue?
    && var p := PrPayload(body);
       if p == map[] then issue.canonical == map[] else MergeGateProblems(forms, p, issue.canonical, true) == []
  }

  /** What the gate demands: nothing of a description without integration fields
      for an issue without any; otherwise complete and valid fields that match
      the issue and are wholly local, or integrated with the recheck recorded. */
  lemma GateIsExact(forms: RefForms, canonical: Payload, body: Lines)
    ensures GateHolds(forms, Issue(canonical), body) <==>
            var p := PrPayload(body);
            if p == map[] then canonical == map[]
            else
              && (forall f :: f in PR_FIELDS ==> Raw(p, f) != "")
              && ValidChoices(p) && MatchesIssue(forms, canonical, p)
              && (WhollyLocal(forms, p) || (Integrated(forms, p) && Value(p, CheckedBeforeMerge) == "yes"))
  {
    hide MergeGateProblems, Raw, Value, ValidChoices, MatchesIssue, WhollyLocal, Integrated, PrPayload;
    MergeGateIsExact(forms, PrPayload(body), canonical, true);
  }

  // ------------------------------------------------------------ what is promised

  predicate StoredApproval(w: World, head: string, body: Lines) {
    && ValidPayload(w.fingerprint, w.stored, w.number, head, Body(body), true)
    && w.stored.verdict == Text("APPROVE") && w.stored.safe == Flag(true)
  }

  /** A safe approval of exactly this head and description; a review in this run
      saw the tree of that head, provided that heads never come back. */
  ghost predicate Approved(w: World, log: Log, head: string, body: Lines) {
    || StoredApproval(w, head, body)
    || exists j :: 0 <= j < |log| && Approves(w, log[j], head, body)
  }

  ghost predicate Approves(w: World, e: Event, head: string, body: Lines) {
    && e.ReviewSaved? && e.meta.head == head && e.meta.body == body
    && w.review(e.call, e.meta, e.tree) == Answers(e.verdict) && e.verdict == Verdict(true, true)
    && (w.artifactsApply(body) ==> w.artifacts(e.call, e.meta).GatePasses?)
    && (Forward(w) ==> e.tree == head)
  }

  ghost predicate GatedBody(w: World, log: Log, body: Lines) {
    exists j :: 0 <= j < |log| && Gated(w, log[j], body)
  }

  predicate Gated(w: World, e: Event, body: Lines) {
    && e.GatePassed? && e.pr.body == body && w.issue(e.call, e.pr) == Issue(e.issue)
    && GateHolds(w.forms, Issue(e.issue), body)
    && (RequiresRecheck(body) ==> w.live(e.call, PrPayload(body)))
  }

  /** The artifact gate passed on a description, where it applies. */
  ghost predicate CheckedArtifacts(w: World, log: Log, body: Lines) {
    w.artifactsApply(body) ==>
      exists j :: 0 <= j < |log| && log[j].ArtifactsPassed? && log[j].pr.body == body
                  && w.artifacts(log[j].call, log[j].pr).GatePasses?
  }

  /** A head and description that may be merged. */
  ghost predicate Cleared(w: World, log: Log, head: string, body: Lines) {
    Approved(w, log, head, body) && CheckedArtifacts(w, log, body) && GatedBody(w, log, body)
  }

  /** The merge issued in the k-th event follows the last read and passing checks
      directly, is for the head that was read, and that head and description were
      approved and passed the gates. */
  ghost predicate SafeMergeAt(w: World, log: Log, k: nat)
    requires k < |log| && log[k].MergeIssued?
  {
    && k >= 2 && log[k - 2].Read?
    && log[k - 1].ChecksPassed? && w.checks(log[k - 1].call) == ChecksRead(true)
    && log[k - 2].pr.head == log[k].head
    && Cleared(w, log[..k - 2], log[k].head, log[k - 2].pr.body)
  }

  ghost predicate SafeMerges(w: World, log: Log) {
    forall k :: 0 <= k < |log| && log[k].MergeIssued? ==> SafeMergeAt(w, log, k)
  }

  /** The guardian writes only a description it has read, or that description
      with another value of the recheck. */
  ghost predicate OwnWrites(log: Log) {
    forall k :: 0 <= k < |log| && log[k].Wrote? ==> exists j :: 0 <= j < k && Derives(log[j], log[k].body)
  }

  ghost predicate Derives(e: Event, body: Lines) {
    && e.Read?
    && (e.pr.body == body || exists v :: YesNo(v) && SetStatus(e.pr.body, v) == SomeLines(body))
  }

  /** A saved review is what the reviewer answered, behind the artifact gate where
      it applies, about the tree of the head or of one that has replaced it. */
  ghost predicate HonestReview(w: World, e: Event) {
    e.ReviewSaved? ==>
      && w.review(e.call, e.meta, e.tree) == Answers(e.verdict)
      && (w.artifactsApply(e.meta.body) ==> w.artifacts(e.call, e.meta).GatePasses?)
      && (Forward(w) ==> Ahead(w, e.meta.head, e.tree))
  }

  ghost predicate HonestReviews(w: World, log: Log) {
    forall k :: 0 <= k < |log| ==> HonestReview(w, log[k])
  }

  /** The log has grown, and no merge was issued. */
  predicate NoMerge(before: Log, after: Log) {
    before <= after && forall k :: |before| <= k < |after| ==> !after[k].MergeIssued?
  }

  /** No review crashed. */
  predicate NoCrash(before: Log, after: Log) {
    before <= after && forall k :: |before| <= k < |after| ==> !after[k].ReviewCrashed?
  }

  /** The guardian has read or written the text before. */
  predicate Shows(e: Event, body: Lines) {
    (e.Read? && e.pr.body == body) || (e.Wrote? && e.body == body)
  }

  /** The `k`th event overwrites an edit of others: a text the guardian never saw. */
  predicate LosesEdit(events: Log, k: nat)
    requires k < |events|
  {
    events[k].Wrote? && forall j :: 0 <= j < k ==> !Shows(events[j], events[k].replaced)
  }

  lemma ApprovedGrows(w: World, log: Log, more: Log, head: string, body: Lines)
    requires Approved(w, log, head, body) && log <= more
    ensures Approved(w, more, head, body)
  {
    if !StoredApproval(w, head, body) {
      var j :| 0 <= j < |log| && Approves(w, log[j], head, body);
      assert more[j] == log[j];
    }
  }

  lemma CheckedArtifactsGrow(w: World, log: Log, more: Log, body: Lines)
    requires CheckedArtifacts(w, log, body) && log <= more
    ensures CheckedArtifacts(w, more, body)
  {
    if w.artifactsApply(body) {
      var j :| 0 <= j < |log| && log[j].ArtifactsPassed? && log[j].pr.body == body
               && w.artifacts(log[j].call, log[j].pr).GatePasses?;
      assert more[j] == log[j];
    }
  }

  lemma SafeMergesGrow(w: World, log: Log, more: Log)
    requires SafeMerges(w, log) && NoMerge(log, more)
    ensures SafeMerges(w, more)
  {
    hide Cleared;
    forall k | 0 <= k < |more| && more[k].MergeIssued?
      ensures SafeMergeAt(w, more, k)
    {
      assert k < |log|;
      assert SafeMergeAt(w, log, k);
      assert k >= 2 ==> log[..k - 2] == more[..k - 2];
    }
  }

  lemma OwnWritesGrow(log: Log, e: Event)
    requires OwnWrites(log)
    requires e.Wrote? ==> exists j :: 0 <= j < |log| && Derives(log[j], e.body)
    ensures OwnWrites(log + [e])
  {
    hide Derives;
    var more := log + [e];
    forall k | 0 <= k < |more| && more[k].Wrote?
      ensures exists j :: 0 <= j < k && Derives(more[j], more[k].body)
    {
      var j :| 0 <= j < k && j < |log| && Derives(log[j], more[k].body);
      assert more[j] == log[j];
    }
  }
}
