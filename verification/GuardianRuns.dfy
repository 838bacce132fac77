/** Several runs of the guarded merge on one pull request, each starting from the
    verdict that the runs before it have saved. */
module GuardianRuns {
  import opened IntegrationContract
  import opened IntegrationText
  import opened IntegrationEdit
  import opened IntegrationRestore
  import opened IntegrationSection
  import opened IntegrationUndo
  import opened Guardian
  import opened GuardianMerge

  // ------------------------------------------------------------ what runs save

  datatype Run = Run(world: World, log: Log)

  ghost predicate Saves(w: World, e: Event, saved: Stored)
    requires e.ReviewSaved?
  {
    exists summary, now ::
      saved == BuildPayload(w.fingerprint, w.number, e.meta.head, e.meta.body, e.verdict, summary, now)
  }

  /** The state file behind a run holds its last review, or what it held before. */
  ghost predicate Leaves(w: World, log: Log, saved: Stored) {
    if log == [] then saved == w.stored
    else
      var e := log[|log| - 1];
      if e.ReviewSaved? then Saves(w, e, saved) else Leaves(w, log[..|log| - 1], saved)
  }

  /** Runs on one pull request, one after the other, the first without any saved
      verdict; each keeps what every run of the guardian keeps. */
  ghost predicate Chain(runs: seq<Run>) {
    && (runs != [] ==> runs[0].world.stored == NoObject)
    && (forall i :: 0 <= i < |runs| ==> SafeMerges(runs[i].world, runs[i].log) && HonestReviews(runs[i].world, runs[i].log))
    && (forall i :: 0 < i < |runs| ==> Succeeds(runs[i - 1], runs[i]))
  }

  ghost predicate Succeeds(r: Run, next: Run) {
    && next.world.number == r.world.number && next.world.fingerprint == r.world.fingerprint
    && Leaves(r.world, r.log, next.world.stored)
  }

  /** A saved review that safely approved exactly this head and description. */
  ghost predicate SafeReview(w: World, e: Event, head: string, body: Lines) {
    && e.ReviewSaved? && e.meta.head == head && e.meta.body == body && e.verdict == Verdict(true, true)
    && HonestReview(w, e)
  }

  ghost predicate ReviewedBy(r: Run, head: string, body: Lines) {
    exists j :: 0 <= j < |r.log| && SafeReview(r.world, r.log[j], head, body)
  }

  lemma {:induction false} LeftVerdictWasSaved(w: World, log: Log, saved: Stored) returns (j: nat)
    requires Leaves(w, log, saved) && saved != w.stored
    ensures j < |log| && log[j].ReviewSaved? && Saves(w, log[j], saved)
  {
    var n := |log| - 1;
    if log[n].ReviewSaved? {
      j := n;
    } else {
      j := LeftVerdictWasSaved(w, log[..n], saved);
    }
  }

  /** A saved verdict can be reused as an approval only for what it safely approved. */
  lemma ReusedApproval(w: World, e: Event, next: World, head: string, body: Lines)
    requires Injective(w.fingerprint) && HonestReview(w, e) && e.ReviewSaved? && Saves(w, e, next.stored)
    requires next.number == w.number && next.fingerprint == w.fingerprint && StoredApproval(next, head, body)
    ensures SafeReview(w, e, head, body)
  {
    hide ValidPayload, HonestReview;
    var summary, now :|
      next.stored == BuildPayload(w.fingerprint, w.number, e.meta.head, e.meta.body, e.verdict, summary, now);
    SavedVerdictIsReusedExactly(w.fingerprint, w.number, e.meta.head, e.meta.body, e.verdict, summary, now, w.number, head,
                                body, true);
  }

  /** Every approval that a run takes from the state file was given, by a review in
      an earlier run, to exactly this head and description. */
  lemma {:induction false} StoredApprovalsAreTraced(runs: seq<Run>, k: nat, head: string, body: Lines) returns (i: nat)
    requires Chain(runs) && k < |runs| && Injective(runs[0].world.fingerprint)
    requires StoredApproval(runs[k].world, head, body)
    ensures i < k && ReviewedBy(runs[i], head, body)
  {
    hide ValidPayload, HonestReview, SafeMerges, Injective, Leaves, SafeReview;
    if k == 0 {
      NothingIsApproved(runs[0].world, head, body);
    } else {
      var r, next := runs[k - 1], runs[k];
      assert Succeeds(r, next);
      SameFingerprint(runs, k - 1);
      if next.world.stored == r.world.stored {
        i := StoredApprovalsAreTraced(runs, k - 1, head, body);
      } else {
        var j := LeftVerdictWasSaved(r.world, r.log, next.world.stored);
        ReusedApproval(r.world, r.log[j], next.world, head, body);
        i := k - 1;
      }
    }
  }

  lemma NothingIsApproved(w: World, head: string, body: Lines)
    requires w.stored == NoObject
    ensures !StoredApproval(w, head, body)
  {
  }

  lemma {:induction false} SameFingerprint(runs: seq<Run>, k: nat)
    requires Chain(runs) && k < |runs|
    ensures runs[k].world.fingerprint == runs[0].world.fingerprint && runs[k].world.number == runs[0].world.number
  {
    hide SafeMerges, HonestReviews, Leaves;
    if k > 0 {
      SameFingerprint(runs, k - 1);
      assert Succeeds(runs[k - 1], runs[k]);
    }
  }

  /** Whatever any of the runs merges, that head with that description was safely
      approved by a review of this run or of an earlier one. */
  lemma MergesAreReviewed(runs: seq<Run>, k: nat, m: nat) returns (i: nat)
    requires Chain(runs) && k < |runs| && Injective(runs[0].world.fingerprint)
    requires m < |runs[k].log| && runs[k].log[m].MergeIssued?
    ensures m >= 2 && runs[k].log[m - 2].Read? && runs[k].log[m - 2].pr.head == runs[k].log[m].head
    ensures i <= k && ReviewedBy(runs[i], runs[k].log[m].head, runs[k].log[m - 2].pr.body)
  {
    hide ValidPayload, HonestReview, Injective, Succeeds, CheckedArtifacts, GatedBody, StoredApproval;
    var r := runs[k];
    assert SafeMergeAt(r.world, r.log, m);
    var head, body := r.log[m].head, r.log[m - 2].pr.body;
    if StoredApproval(r.world, head, body) {
      i := StoredApprovalsAreTraced(runs, k, head, body);
    } else {
      var j :| 0 <= j < m - 2 && Approves(r.world, r.log[..m - 2][j], head, body);
      assert r.log[j] == r.log[..m - 2][j];
      assert HonestReview(r.world, r.log[j]);
      assert SafeReview(r.world, r.log[j], head, body);
      i := k;
    }
  }

  // ------------------------------------------------------------ a returning head

  /** Others replace the head in front of the fetch and bring it back behind it. */
  function Returning(w: World, c: nat, head: string, other: string): World {
    w.(others := (n, p: Pr) => if n == c + 1 then p.(head := other) else if n == c + 2 then p.(head := head) else p)
  }

  /** The review that starts at call `c` then sees another tree than the one it
      approves, and the next read cannot tell: that heads never come back is
      needed for the promise about the tree. */
  lemma ReturningHeadIsNotNoticed(w: World, c: nat, p: Pr, other: string)
    requires other != p.head
    ensures var w' := Returning(w, c, p.head, other);
            var meta := w'.others(c, p);
            var fetched := w'.others(c + 1, meta);
            var later := w'.others(c + 2, fetched);
            && later.head == meta.head && later.body == meta.body && fetched.head != meta.head
            && !Forward(w')
  {
    var w' := Returning(w, c, p.head, other);
    assert w'.others(c + 1, p).head == other && w'.others(c + 2, p.(head := other)).head == p.head;
    assert !Ahead(w', p.head, other) || !Ahead(w', other, p.head);
  }

  /** The review of such a pull request, reading and approving as it may: the run
      has a saved safe approval of the head, given on another head's tree, and
      behind it a read that shows the approved head and description. */
  method ReturningHeadIsApproved(w: World, p: Pr, other: string) returns (pull: PullRequest)
    requires other != p.head && !w.readFails(0) && !w.readFails(2)
    requires w.review(1, p, other) == SAFE_APPROVAL && (w.artifactsApply(p.body) ==> w.artifacts(1, p).GatePasses?)
    ensures fresh(pull) && pull.world == Returning(w, 0, p.head, other) && !Forward(pull.world)
    ensures pull.log == [Read(p), ReviewSaved(1, p, other, Verdict(true, true)), Read(p)]
    ensures SafeReview(pull.world, pull.log[1], p.head, p.body) && pull.log[1].tree != p.head
  {
    hide SafeMerges, OwnWrites, HonestReviews, Forward, Quiet, Smooth, ReviewsWith, NoMerge, NoCrash;
    ReturningHeadIsNotNoticed(w, 0, p, other);
    var w' := Returning(w, 0, p.head, other);
    var replaced := p.(head := other);
    assert w'.others(0, p) == p && w'.others(1, p) == replaced && w'.others(2, replaced) == p;
    pull := new PullRequest(w', p);
    var run := pull.ReviewOnce(false);
    assert run.Run? && run.meta == p;
    assert pull.log == [Read(p), ReviewSaved(1, p, other, Verdict(true, true))];
    var read := pull.PrMeta();
  }

  // ------------------------------------------------------ what an undone run keeps

  /** After an undone run all fields are as they were, but for the spelling of the
      recheck: the run has written only if the flagged description had passed the
      gate, and then nothing but the reference can be hit, and that only if the
      forms of references admit a text that names the recheck. */
  lemma UndoneRunKeepsFields(w: World, l: Layout, before: Pr, after: Pr)
    requires OneSection(l) && before.body == BodyOf(l) && IsUndone(before, after)
    requires after == before || PreviewPassed(w, before.body)
    ensures after == before.(body := after.body) && ReadStatus(after.body) == ReadStatus(before.body)
    ensures ReferenceOnly(PrPayload(before.body), PrPayload(after.body))
    ensures SaneForms(w.forms) ==> OthersKept(PrPayload(before.body), PrPayload(after.body))
  {
    hide OneSection, BodyOf, PrPayload, ReadStatus, SetStatus, Undone, SaneForms, OthersKept, ReferenceOnly, SectionSpan,
         PreviewPassed, SpannedLines, HitsAnother, Previewed;
    UndoneKeepsStatus(before.body, after.body);
    UndoneKeepsFields(w.forms, l, after.body);
    if after == before {
      NothingIsKept(PrPayload(before.body));
      KeptMeansReferenceOnly(PrPayload(before.body), PrPayload(after.body));
    } else {
      PassedIsPreviewed(w, l);
    }
  }

  lemma PassedIsPreviewed(w: World, l: Layout)
    requires OneSection(l) && PreviewPassed(w, BodyOf(l))
    ensures Previewed(w.forms, BodyOf(l))
  {
    hide OneSection, BodyOf, PrPayload, SetStatus, MergeGateProblems, HitsAnother, OthersKept;
    var flagged := SetStatus(BodyOf(l), "yes").lines;
    UndoneSection(l, flagged, "yes");
    var n, p :| GateHolds(w.forms, w.issue(n, p), flagged);
    assert PrPayload(BodyOf(l)) != map[] by { RecheckNeedsFields(BodyOf(l)); }
    assert PrPayload(flagged) != map[] by { assert PrPayload(BodyOf(l)).Keys != {}; }
    assert MergeGateProblems(w.forms, PrPayload(flagged), w.issue(n, p).canonical, true) == [];
  }

  lemma RecheckNeedsFields(body: Lines)
    requires RequiresRecheck(body)
    ensures PrPayload(body) != map[]
  {
    hide PrPayload;
  }
}
