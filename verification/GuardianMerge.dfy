/** The steps of the guarded merge, from the first read to the merge command. */
module GuardianMerge {
  import opened IntegrationContract
  import opened IntegrationText
  import opened IntegrationEdit
  import opened IntegrationSection
  import opened IntegrationUndo
  import opened Guardian

  datatype ReviewRun = RunFails | RunCrashes | Run(meta: Pr, verdict: Verdict)

  datatype RecordAnswer = RecordFails | Recorded(current: Pr, previous: string)

  /** The value to restore, once the recheck has been recorded. */
  datatype Pending = Nothing | Restore(previous: string)

  datatype Outcome = Merged | Refused | RefusedUnrestored | Crashed | MergeFailed

  datatype Step = Stop(outcome: Outcome) | Go(current: Pr, pending: Pending)

  /** Nobody disturbs the run and no answer but the reviewer's can speak against
      the merge. */
  ghost predicate Smooth(w: World, issue: Payload) {
    && Quiet(w)
    && (forall n :: !w.postFails(n))
    && (forall n, p :: w.artifacts(n, p) == GatePasses)
    && (forall n, p :: w.issue(n, p) == Issue(issue))
    && (forall n, p :: w.live(n, p))
    && (forall n :: w.checks(n) == ChecksRead(true))
    && (forall n :: w.accepts(n))
  }

  ghost predicate ReviewsWith(w: World, body: Lines, answer: ReviewAnswer) {
    forall n: nat, p: Pr, tree: string :: p.body == body ==> w.review(n, p, tree) == answer
  }

  const SAFE_APPROVAL := Answers(Verdict(true, true))

  /** The pull request in the middle of a run that nobody disturbs. */
  ghost predicate Underway(before: Pr, pending: Pending, now: Pr) {
    match pending
    case Nothing => now == before
    case Restore(previous) =>
      && ReadStatus(before.body) == Status(previous)
      && now == before.(body := now.body) && SetStatus(before.body, "yes") == SomeLines(now.body)
  }

  /** The recheck stays recorded in the description though it was not before. */
  predicate LeftRecorded(before: Lines, after: Lines) {
    before != after && ReadStatus(before) == Status("no") && SetStatus(before, "yes") == SomeLines(after)
  }

  lemma LeftRecordedIsNotUndone(before: Lines, after: Lines)
    requires LeftRecorded(before, after)
    ensures !Undone(before, after)
  {
    hide ReadStatus, SetStatus;
    RecordedValuesDiffer(before);
  }

  /** A recorded recheck is not undone exactly when it is left recorded. */
  lemma RecordedIsUndoneExactly(before: Pr, previous: string, now: Pr)
    requires Underway(before, Restore(previous), now)
    ensures IsUndone(before, now) <==> !LeftRecorded(before.body, now.body)
  {
    hide ReadStatus, SetStatus;
    StatusIsYesNo(before.body);
    if LeftRecorded(before.body, now.body) {
      LeftRecordedIsNotUndone(before.body, now.body);
    }
  }

  /** The last thing the run did was to start a review of this pull request, which
      crashed. */
  predicate CrashedOn(log: Log, p: Pr) {
    log != [] && log[|log| - 1].ReviewCrashed? && log[|log| - 1].meta == p
  }

  /** The run ended in a crash of the review of the flagged description. */
  predicate FlaggedReviewCrashed(before: Log, after: Log, body: Lines) {
    && |after| > |before| && after[|after| - 1].ReviewCrashed?
    && after[|after| - 1].meta.body != body
    && SetStatus(body, "yes") == SomeLines(after[|after| - 1].meta.body)
  }

  lemma CrashOnFlagged(before: Log, after: Log, body: Lines, p: Pr)
    requires |after| > |before| && CrashedOn(after, p)
    ensures FlaggedReviewCrashed(before, after, body) <==> p.body != body && SetStatus(body, "yes") == SomeLines(p.body)
    ensures LeftRecorded(body, p.body) <==>
            ReadStatus(body) == Status("no") && FlaggedReviewCrashed(before, after, body)
    ensures after[|after| - 1].ReviewCrashed? && after[|after| - 1].meta == p
  {
    hide SetStatus, ReadStatus;
  }

  lemma LogsGrow(before: Log, after: Log)
    requires NoMerge(before, after)
    ensures before <= after
  {
  }

  lemma CalmThen(a: Log, b: Log, c: Log)
    requires NoMerge(a, b) && NoMerge(b, c)
    ensures NoMerge(a, c) && a <= c
    ensures NoCrash(a, b) && NoCrash(b, c) ==> NoCrash(a, c)
  {
  }

  lemma CrashesStayOut(a: Log, b: Log, c: Log)
    requires NoMerge(a, b) && NoCrash(a, b) && NoCrash(b, c)
    ensures NoCrash(a, c) && (NoMerge(b, c) ==> NoMerge(a, c))
  {
  }

  lemma LastIsCalm(a: Log, b: Log, c: Log, body: Lines)
    requires NoMerge(a, b) && NoCrash(a, b) && NoCrash(b, c)
    ensures a <= b <= c && !FlaggedReviewCrashed(a, c, body)
    ensures NoMerge(b, c) ==> NoMerge(a, c)
  {
    hide SetStatus;
  }

  lemma CalmHasNoFlaggedCrash(before: Log, after: Log, body: Lines)
    requires NoCrash(before, after)
    ensures !FlaggedReviewCrashed(before, after, body)
  {
    hide SetStatus;
  }

  /** The description with the recheck recorded, where one is demanded. */
  function Flagged(body: Lines): Lines {
    if RequiresRecheck(body) && SetStatus(body, "yes").SomeLines? then SetStatus(body, "yes").lines else body
  }

  /** The description with the recheck recorded has passed the gate. */
  ghost predicate PreviewPassed(w: World, body: Lines) {
    && RequiresRecheck(body) && SetStatus(body, "yes").SomeLines?
    && exists n, p :: GateHolds(w.forms, w.issue(n, p), SetStatus(body, "yes").lines)
  }

  // ------------------------------------------------------ traces of the two edits

  /** Head and description are those of `meta`, as far as its head is known. */
  predicate Unchanged(meta: Pr, p: Pr) {
    (meta.head != "" ==> p.head == meta.head) && p.body == meta.body
  }

  predicate Flags(body: Lines, e: Event) {
    e.Wrote? && SetStatus(body, "yes") == SomeLines(e.body)
  }

  /** What recording leaves in the log: at most a read, a write of the flagged
      description if the read has shown an unchanged one, and then another read or
      the roll-back. */
  predicate RecordTrace(meta: Pr, events: Log) {
    |events| > 0 ==>
      && events[0].Read?
      && (|events| > 1 ==> Unchanged(meta, events[0].pr) && Flags(meta.body, events[1]) && events[1].body != meta.body)
      && (|events| > 2 ==> |events| == 3 && (events[2].Read? || (events[2].Wrote? && events[2].body == meta.body)))
  }

  /** Recording has succeeded: the flag was there, or was written and read again. */
  predicate RecordedTrace(meta: Pr, events: Log, current: Pr) {
    && |events| > 0 && events[|events| - 1] == Read(current)
    && events[0].Read? && Unchanged(meta, events[0].pr)
    && (|events| == 3 || (|events| == 1 && SetStatus(meta.body, "yes") == SomeLines(meta.body)))
  }

  /** The flag was recorded, and behind that the continued description was reviewed
      and approved. */
  ghost predicate FlaggedThenReviewed(w: World, log: Log, start: nat, body: Lines, current: Pr) {
    exists i, j :: start <= i < j < |log| && ShowsFlag(body, log[i]) && Approves(w, log[j], current.head, current.body)
  }

  predicate ShowsFlag(body: Lines, e: Event) {
    Flags(body, e) || (e.Read? && e.pr.body == body && SetStatus(body, "yes") == SomeLines(body))
  }

  /** What restoring leaves in the log: a read and, if the value has to change, a
      write of what was read with that value. */
  predicate RestoreTrace(previous: string, events: Log, ok: bool) {
    if events == [] then !ok
    else
      && events[0].Read?
      && var restored := SetStatus(events[0].pr.body, previous);
         if restored.NoLines? || restored.lines == events[0].pr.body then |events| == 1 && ok == restored.SomeLines?
         else if ok then |events| == 2 && events[1].Wrote? && events[1].body == restored.lines
         else |events| == 1
  }

  /** The pull request that others leave to a write that follows the read `p` of
      call `c`, and to the roll-back of that write. */
  function AtWrite(w: World, c: nat, p: Pr): Pr {
    w.others(c + 1, p)
  }

  function AtRollBack(w: World, c: nat, p: Pr, flagged: Lines): Pr {
    w.others(c + 3, w.others(c + 2, AtWrite(w, c, p).(body := flagged)))
  }

  /** Others edit the description once, in front of the `n`th call. */
  ghost predicate EditedOnce(w: World, n: nat, edited: Lines) {
    forall m, p: Pr :: w.others(m, p) == if m == n then p.(body := edited) else p
  }

  /** An edit of others is overwritten by a write of the run. */
  ghost predicate EditIsLost(events: Log) {
    exists k :: 0 <= k < |events| && LosesEdit(events, k)
  }

  /** Recording that starts at call `c` loses the edit in front of call `n`: it falls
      between read and write, or between the write and the roll-back, and leaves a
      text that was not seen. */
  predicate FallsIntoRecording(c: nat, events: Log, n: nat, edited: Lines) {
    && |events| > 1 && events[0].Read? && events[1].Wrote?
    && (|| (n == c + 1 && edited != events[0].pr.body)
        || (|events| > 2 && events[2].Wrote? && (n == c + 2 || n == c + 3)
            && edited != events[0].pr.body && edited != events[1].body))
  }

  predicate FallsIntoRestoring(c: nat, events: Log, n: nat, edited: Lines) {
    |events| > 1 && events[0].Read? && n == c + 1 && edited != events[0].pr.body
  }

  /** What the writes of recording have replaced. */
  predicate Replaced(w: World, c: nat, events: Log) {
    && (|events| > 1 && events[0].Read? && events[1].Wrote? ==> events[1].replaced == AtWrite(w, c, events[0].pr).body)
    && (|events| > 2 && events[0].Read? && events[1].Wrote? && events[2].Wrote? ==>
          events[2].replaced == AtRollBack(w, c, events[0].pr, events[1].body).body)
  }

  /** Some edit is lost by recording, however often others edit, exactly when the
      text they leave to the write is not the one that was read, or the one they
      leave to the roll-back is neither that nor the one written. */
  lemma RecordingLosesInAnyWorld(w: World, c: nat, meta: Pr, events: Log)
    requires RecordTrace(meta, events) && Replaced(w, c, events)
    ensures EditIsLost(events) <==>
            || (|events| > 1 && AtWrite(w, c, events[0].pr).body != events[0].pr.body)
            || (|events| > 2 && events[2].Wrote?
                && AtRollBack(w, c, events[0].pr, events[1].body).body !in {events[0].pr.body, events[1].body})
  {
    hide SetStatus;
    if |events| > 1 {
      assert LosesEdit(events, 1) <==> events[1].replaced != events[0].pr.body by { assert !LosesEdit(events, 0); }
    }
    if |events| > 2 {
      assert LosesEdit(events, 2) <==>
        events[2].Wrote? && events[2].replaced != events[0].pr.body && events[2].replaced != events[1].body;
    }
    assert EditIsLost(events) <==>
      (|events| > 1 && LosesEdit(events, 1)) || (|events| > 2 && LosesEdit(events, 2));
  }

  lemma RecordingLosesExactly(w: World, c: nat, meta: Pr, events: Log, n: nat, edited: Lines)
    requires EditedOnce(w, n, edited) && RecordTrace(meta, events) && Replaced(w, c, events)
    ensures EditIsLost(events) <==> FallsIntoRecording(c, events, n, edited)
  {
    hide SetStatus, EditIsLost;
    RecordingLosesInAnyWorld(w, c, meta, events);
  }

  /** Some edit is lost by restoring, however often others edit, exactly when the
      text they leave to the write is not the one that was read. */
  lemma RestoringLosesInAnyWorld(w: World, c: nat, previous: string, events: Log, ok: bool)
    requires RestoreTrace(previous, events, ok)
    requires |events| > 1 ==> events[1].Wrote? && events[1].replaced == AtWrite(w, c, events[0].pr).body
    ensures EditIsLost(events) <==> |events| > 1 && AtWrite(w, c, events[0].pr).body != events[0].pr.body
  {
    hide SetStatus;
    if |events| > 1 {
      assert LosesEdit(events, 1) <==> events[1].replaced != events[0].pr.body;
    }
    assert EditIsLost(events) <==> |events| > 1 && LosesEdit(events, 1);
  }

  lemma RestoringLosesExactly(w: World, c: nat, previous: string, events: Log, ok: bool, n: nat, edited: Lines)
    requires EditedOnce(w, n, edited) && RestoreTrace(previous, events, ok)
    requires |events| > 1 ==> events[1].Wrote? && events[1].replaced == AtWrite(w, c, events[0].pr).body
    ensures EditIsLost(events) <==> FallsIntoRestoring(c, events, n, edited)
  {
    hide SetStatus, EditIsLost;
    RestoringLosesInAnyWorld(w, c, previous, events, ok);
  }

  /** The pull request after a refusal that nobody disturbed. */
  ghost predicate IsUndone(before: Pr, after: Pr) {
    after == before.(body := after.body) && Undone(before.body, after.body)
  }

  lemma NothingToUndo(p: Pr)
    ensures IsUndone(p, p) && !LeftRecorded(p.body, p.body)
  {
  }

  lemma StatusIsYesNo(body: Lines)
    requires ReadStatus(body).Status?
    ensures YesNo(ReadStatus(body).value)
  {
    hide SectionSpan, ParseSection, Value;
  }

  datatype Options = Options(post: bool, refresh: bool, confirm: bool)

  /** No saved verdict stands in the way of an approval. */
  predicate Reviewable(w: World, options: Options, p: Pr) {
    && !p.draft
    && (!options.refresh && ValidPayload(w.fingerprint, w.stored, w.number, p.head, Body(p.body), true)
        ==> StoredApproval(w, p.head, p.body))
  }

  /** The description, with the recheck recorded when that is demanded, passes
      the gate. */
  predicate Passable(w: World, issue: Payload, confirm: bool, body: Lines) {
    if !RequiresRecheck(body) then GateHolds(w.forms, Issue(issue), body)
    else
      && confirm && ReadStatus(body).Status? && SetStatus(body, "yes").SomeLines?
      && GateHolds(w.forms, Issue(issue), SetStatus(body, "yes").lines)
  }

  /** A verdict that is reused without a fresh review is bound to its head and
      description. */
  lemma StoredPayloadIsBound(w: World, head: string, body: Lines)
    requires ValidPayload(w.fingerprint, w.stored, w.number, head, Body(body), true)
    ensures w.stored.Object? && w.stored.schema == Number(2) && w.stored.head == Text(head) && w.stored.safe.Flag?
    ensures w.stored.fingerprint == Text(w.fingerprint(body))
  {
  }

  class PullRequest {
    const world: World
    var pr: Pr
    var clock: nat
    ghost var log: Log

    ghost predicate Valid()
      reads this
    {
      SafeMerges(world, log) && OwnWrites(log) && HonestReviews(world, log)
    }

    constructor (world: World, pr: Pr)
      ensures Valid() && this.world == world && this.pr == pr && clock == 0 && log == []
    {
      this.world, this.pr, clock, log := world, pr, 0, [];
    }

    ghost method Note(e: Event)
      requires Valid() && !e.MergeIssued? && HonestReview(world, e)
      requires e.Wrote? ==> exists j :: 0 <= j < |log| && Derives(log[j], e.body)
      modifies `log
      ensures Valid() && log == old(log) + [e]
    {
      hide SafeMerges, OwnWrites, Derives, HonestReview;
      OwnWritesGrow(log, e);
      SafeMergesGrow(world, log, log + [e]);
      log := log + [e];
    }

    method OthersAct() returns (n: nat)
      modifies `pr, `clock
      ensures n == old(clock) && clock == n + 1 && pr == world.others(n, old(pr))
    {
      n := clock;
      pr := world.others(n, pr);
      clock := n + 1;
    }

    method PrMeta() returns (r: ReadAnswer)
      requires Valid()
      modifies this
      ensures Valid() && clock == old(clock) + 1
      ensures pr == world.others(old(clock), old(pr))
      ensures r == if world.readFails(old(clock)) then ReadFails else Seen(pr)
      ensures log == if r.Seen? then old(log) + [Read(pr)] else old(log)
    {
      hide SafeMerges, HonestReviews, OwnWrites;
      var n := OthersAct();
      if world.readFails(n) {
        return ReadFails;
      }
      Note(Read(pr));
      r := Seen(pr);
    }

    method UpdateBody(body: Lines) returns (ok: bool)
      requires Valid()
      requires exists j :: 0 <= j < |log| && Derives(log[j], body)
      modifies this
      ensures Valid() && clock == old(clock) + 1 && ok == !world.writeFails(old(clock))
      ensures var p := world.others(old(clock), old(pr)); pr == if ok then p.(body := body) else p
      ensures log == if ok then old(log) + [Wrote(body, world.others(old(clock), old(pr)).body)] else old(log)
    {
      hide SafeMerges, HonestReviews, OwnWrites, Derives;
      var n := OthersAct();
      if world.writeFails(n) {
        return false;
      }
      ghost var replaced := pr.body;
      pr := pr.(body := body);
      Note(Wrote(body, replaced));
      ok := true;
    }

    method AllChecksPass() returns (r: ChecksAnswer)
      requires Valid()
      modifies this
      ensures Valid()
      ensures r == world.checks(old(clock)) && pr == world.others(old(clock), old(pr))
      ensures log == if r == ChecksRead(true) then old(log) + [ChecksPassed(old(clock))] else old(log)
    {
      hide SafeMerges, HonestReviews, OwnWrites;
      var n := OthersAct();
      r := world.checks(n);
      if r == ChecksRead(true) {
        Note(ChecksPassed(n));
      }
    }

    /** The server merges only while the head is the expected one. */
    method Merge(expected: string) returns (ok: bool)
      requires Valid()
      requires SafeMergeAt(world, log + [MergeIssued(expected)], |log|)
      modifies this
      ensures Valid() && log == old(log) + [MergeIssued(expected)]
      ensures pr == world.others(old(clock), old(pr))
      ensures ok == (pr.head == expected && world.accepts(old(clock)))
    {
      hide Cleared;
      var n := OthersAct();
      OwnWritesGrow(log, MergeIssued(expected));
      MergeIsSafe(log, expected);
      log := log + [MergeIssued(expected)];
      ok := pr.head == expected && world.accepts(n);
    }

    lemma MergeIsSafe(soFar: Log, expected: string)
      requires SafeMerges(world, soFar) && SafeMergeAt(world, soFar + [MergeIssued(expected)], |soFar|)
      ensures SafeMerges(world, soFar + [MergeIssued(expected)])
    {
      hide Cleared;
      var more := soFar + [MergeIssued(expected)];
      forall k | 0 <= k < |more| && more[k].MergeIssued?
        ensures SafeMergeAt(world, more, k)
      {
        if k < |soFar| {
          assert SafeMergeAt(world, soFar, k);
          assert k >= 2 ==> soFar[..k - 2] == more[..k - 2];
        }
      }
    }

    /** One review: read, fetch the head into a worktree, check the artifacts, ask
        for a verdict, save it, post it. */
    method ReviewOnce(post: bool) returns (r: ReviewRun)
      requires Valid()
      modifies this
      ensures Valid() && NoMerge(old(log), log)
      ensures r.Run? ==>
                && r.meta == world.others(old(clock), old(pr)) && log != []
                && log[|log| - 1] == ReviewSaved(old(clock) + 1, r.meta, pr.head, r.verdict)
                && world.review(old(clock) + 1, r.meta, pr.head) == Answers(r.verdict)
                && (world.artifactsApply(r.meta.body) ==> world.artifacts(old(clock) + 1, r.meta).GatePasses?)
                && pr == world.others(old(clock) + 1, r.meta)
      ensures Quiet(world) ==> pr == old(pr) && (r.Run? ==> r.meta == pr)
      ensures r.Run? ==> clock == old(clock) + 2 && |log| == |old(log)| + 2 && log[|old(log)|] == Read(r.meta)
      ensures var meta := world.others(old(clock), old(pr));
              var tree := world.others(old(clock) + 1, meta).head;
              r.Run? <==>
              && !world.readFails(old(clock))
              && (world.artifactsApply(meta.body) ==> world.artifacts(old(clock) + 1, meta).GatePasses?)
              && world.review(old(clock) + 1, meta, tree).Answers? && !(post && world.postFails(old(clock) + 1))
      ensures !r.RunCrashes? ==> NoCrash(old(log), log)
      ensures r.RunCrashes? ==> |log| > |old(log)| && (Quiet(world) ==> CrashedOn(log, pr))
      ensures ReviewsWith(world, old(pr).body, SAFE_APPROVAL) ==>
                forall issue :: Smooth(world, issue) ==> r.Run? && r.verdict == Verdict(true, true)
      ensures ReviewsWith(world, old(pr).body, ReviewCrashes) ==> forall issue :: Smooth(world, issue) ==> r.RunCrashes?
    {
      hide SafeMerges, HonestReviews, OwnWrites;
      var read := PrMeta();
      if read.ReadFails? {
        return RunFails;
      }
      var meta := read.pr;
      var n := OthersAct();
      var tree := pr.head;
      if world.artifactsApply(meta.body) && !world.artifacts(n, meta).GatePasses? {
        return RunFails;
      }
      var answer := world.review(n, meta, tree);
      match answer
      case ReviewFails => return RunFails;
      case ReviewCrashes =>
        Note(ReviewCrashed(n, meta));
        return RunCrashes;
      case Answers(verdict) =>
        Note(ReviewSaved(n, meta, tree, verdict));
        if post && world.postFails(n) {
          return RunFails;
        }
        r := Run(meta, verdict);
    }

    /** Records the recheck, unless head or description have changed since `meta`. */
    method RecordRecheck(meta: Pr) returns (r: RecordAnswer)
      requires Valid()
      modifies this
      ensures Valid() && NoMerge(old(log), log) && NoCrash(old(log), log)
      ensures r.Recorded? ==> YesNo(r.previous) && ReadStatus(meta.body) == Status(r.previous)
      ensures RecordTrace(meta, log[|old(log)|..])
      ensures r.Recorded? ==> RecordedTrace(meta, log[|old(log)|..], r.current)
      ensures Replaced(world, old(clock), log[|old(log)|..])
      ensures var events := log[|old(log)|..];
              && (events != [] ==> events[0].pr == world.others(old(clock), old(pr)))
              && (r.Recorded? && |events| == 3 ==>
                    pr == world.others(old(clock) + 2,
                                       AtWrite(world, old(clock), events[0].pr).(body := events[1].body)))
              && (r.RecordFails? && |events| == 3 ==>
                    && events[2].Wrote?
                    && pr == AtRollBack(world, old(clock), events[0].pr, events[1].body).(body := meta.body))
      ensures forall n, edited :: EditedOnce(world, n, edited) ==>
                (EditIsLost(log[|old(log)|..]) <==> FallsIntoRecording(old(clock), log[|old(log)|..], n, edited))
      ensures Quiet(world) && r.RecordFails? ==> pr == old(pr)
      ensures Quiet(world) && r.Recorded? ==> r.current == pr && Underway(old(pr), Restore(r.previous), pr)
      ensures Quiet(world) && meta == old(pr) && ReadStatus(meta.body).Status? && SetStatus(meta.body, "yes").SomeLines?
              ==> r.Recorded?
    {
      hide SafeMerges, HonestReviews, OwnWrites, ReadStatus, SetStatus, EditedOnce, EditIsLost, FallsIntoRecording;
      r := RecordFails;
      var read := PrMeta();
      if read.Seen? && Unchanged(meta, read.pr) {
        var latest := read.pr;
        var previous, updated := ReadStatus(latest.body), SetStatus(latest.body, "yes");
        if previous.Status? && updated.SomeLines? {
          StatusIsYesNo(latest.body);
          if updated.lines == latest.body {
            r := Recorded(latest, previous.value);
          } else {
            r := WriteRecheck(latest, updated.lines, previous.value);
          }
        }
      }
      ghost var events := log[|old(log)|..];
      forall n, edited | EditedOnce(world, n, edited)
        ensures EditIsLost(events) <==> FallsIntoRecording(old(clock), events, n, edited)
      {
        RecordingLosesExactly(world, old(clock), meta, events, n, edited);
      }
    }

    /** Writes the flagged description over the one just read, reads again, and
        writes the one just read back if that fails. */
    method WriteRecheck(latest: Pr, flagged: Lines, previous: string) returns (r: RecordAnswer)
      requires Valid() && log != [] && log[|log| - 1] == Read(latest)
      requires SetStatus(latest.body, "yes") == SomeLines(flagged)
      modifies this
      ensures Valid() && NoMerge(old(log), log) && NoCrash(old(log), log)
      ensures r.Recorded? ==> r.previous == previous && r.current == pr && |log| == |old(log)| + 2
                              && log[|log| - 1] == Read(pr)
                              && pr == world.others(old(clock) + 1, world.others(old(clock), old(pr)).(body := flagged))
      ensures |log| <= |old(log)| + 2
      ensures |log| > |old(log)| ==>
                log[|old(log)|] == Wrote(flagged, world.others(old(clock), old(pr)).body)
      ensures r.RecordFails? && |log| == |old(log)| + 2 ==>
                var p := world.others(old(clock) + 2,
                                      world.others(old(clock) + 1, world.others(old(clock), old(pr)).(body := flagged)));
                log[|log| - 1] == Wrote(latest.body, p.body) && pr == p.(body := latest.body)
      ensures Quiet(world) ==> r.Recorded? && pr == old(pr).(body := flagged)
    {
      hide SafeMerges, HonestReviews, OwnWrites, SetStatus;
      assert Derives(log[|log| - 1], flagged) && Derives(log[|log| - 1], latest.body);
      ghost var seen := log[|log| - 1];
      var ok := UpdateBody(flagged);
      if !ok {
        return RecordFails;
      }
      var again := PrMeta();
      if again.ReadFails? {
        assert log[|log| - 2] == seen;
        var undone := UpdateBody(latest.body);
        return RecordFails;
      }
      r := Recorded(again.pr, previous);
    }

    /** Writes the previous value back into the description as it is now. */
    method RestoreRecheck(previous: string) returns (ok: bool)
      requires Valid() && YesNo(previous)
      modifies this
      ensures Valid() && NoMerge(old(log), log) && NoCrash(old(log), log)
      ensures RestoreTrace(previous, log[|old(log)|..], ok)
      ensures var events := log[|old(log)|..];
              && (events != [] ==> events[0].pr == world.others(old(clock), old(pr)))
              && (|events| == 2 ==>
                    && events[1].replaced == AtWrite(world, old(clock), events[0].pr).body
                    && pr == AtWrite(world, old(clock), events[0].pr).(body := events[1].body))
      ensures forall n, edited :: EditedOnce(world, n, edited) ==>
                (EditIsLost(log[|old(log)|..]) <==> FallsIntoRestoring(old(clock), log[|old(log)|..], n, edited))
      ensures var restored := SetStatus(old(pr).body, previous);
              Quiet(world) && restored.SomeLines? ==> ok && pr == old(pr).(body := restored.lines)
    {
      hide SafeMerges, HonestReviews, OwnWrites, SetStatus, EditedOnce, EditIsLost, FallsIntoRestoring;
      ok := false;
      var read := PrMeta();
      if read.Seen? {
        var latest := read.pr;
        var restored := SetStatus(latest.body, previous);
        if restored.SomeLines? {
          if restored.lines == latest.body {
            ok := true;
          } else {
            assert log[|log| - 1] == Read(latest) && Derives(Read(latest), restored.lines);
            ok := UpdateBody(restored.lines);
          }
        }
      }
      ghost var events := log[|old(log)|..];
      forall n, edited | EditedOnce(world, n, edited)
        ensures EditIsLost(events) <==> FallsIntoRestoring(old(clock), events, n, edited)
      {
        RestoringLosesExactly(world, old(clock), previous, events, ok, n, edited);
      }
    }

    /** Ends a run that may not merge, undoing a recorded recheck first. */
    method Refuse(pending: Pending, outcome: Outcome, ghost before: Pr) returns (r: Outcome)
      requires Valid() && (pending.Restore? ==> YesNo(pending.previous)) && outcome != RefusedUnrestored
      modifies this
      ensures Valid() && NoMerge(old(log), log) && NoCrash(old(log), log)
      ensures r == outcome || r == RefusedUnrestored
      ensures pending.Nothing? ==> r == outcome && log == old(log) && pr == old(pr)
      ensures pending.Restore? ==> RestoreTrace(pending.previous, log[|old(log)|..], r == outcome)
      ensures Quiet(world) && Underway(before, pending, old(pr)) ==> r == outcome && IsUndone(before, pr)
    {
      hide SafeMerges, HonestReviews, OwnWrites, SetStatus, ReadStatus;
      if pending.Nothing? {
        return outcome;
      }
      if ReadStatus(before.body).Status? && SetStatus(before.body, "yes").SomeLines? {
        RestoreUndoes(before.body);
      }
      var ok := RestoreRecheck(pending.previous);
      r := if ok then outcome else RefusedUnrestored;
    }

    /** The first verdict, saved or fresh, and the checks on it. */
    method ObtainVerdict(options: Options) returns (r: Step)
      requires Valid()
      modifies this
      ensures Valid() && NoMerge(old(log), log)
      ensures r.Stop? ==> r.outcome == Refused || r.outcome == Crashed
      ensures r.Go? ==> r.pending == Nothing && Approved(world, log, r.current.head, r.current.body)
      ensures r.Go? ==> |log| > |old(log)| && log[|log| - 1] == Read(r.current) && !r.current.draft
      ensures Quiet(world) ==> pr == old(pr) && (r.Go? ==> r.current == pr)
      ensures !(r.Stop? && r.outcome == Crashed) ==> NoCrash(old(log), log)
      ensures r.Stop? && r.outcome == Crashed ==> |log| > |old(log)| && (Quiet(world) ==> CrashedOn(log, pr))
      ensures Reviewable(world, options, old(pr)) && ReviewsWith(world, old(pr).body, SAFE_APPROVAL) ==>
                forall issue :: Smooth(world, issue) ==> r.Go?
    {
      hide SafeMerges, HonestReviews, OwnWrites, ValidPayload, ReviewsWith;
      var read := PrMeta();
      if read.ReadFails? {
        return Stop(Refused);
      }
      var current := read.pr;
      var verdict, reviewedHead, reviewedBody, bodyBound;
      if !options.refresh
         && ValidPayload(world.fingerprint, world.stored, world.number, current.head, Body(current.body), true)
      {
        StoredPayloadIsBound(world, current.head, current.body);
        verdict := Verdict(world.stored.verdict == Text("APPROVE"), world.stored.safe.b);
        reviewedHead, reviewedBody := world.stored.head.s, current.body;
        bodyBound := world.stored.schema == Number(2);
      } else {
        var run := ReviewOnce(options.post);
        match run
        case RunFails => return Stop(Refused);
        case RunCrashes => return Stop(Crashed);
        case Run(meta, v) =>
          verdict, reviewedHead, reviewedBody, bodyBound := v, meta.head, meta.body, true;
          ghost var saved := log[|log| - 1];
          read := PrMeta();
          if read.ReadFails? {
            return Stop(Refused);
          }
          current := read.pr;
          assert log[|log| - 2] == saved;
          if verdict == Verdict(true, true) && current.head == meta.head {
            assert Approves(world, log[|log| - 2], reviewedHead, reviewedBody);
          }
      }
      if !verdict.approve || !verdict.safe || current.draft {
        return Stop(Refused);
      }
      if current.head != reviewedHead || (bodyBound && current.body != reviewedBody) {
        return Stop(Refused);
      }
      r := Go(current, Nothing);
    }

    /** Records the recheck when the gate demands one and reviews the description
        with it again. */
    method RecordAndReview(first: Pr, options: Options) returns (r: Step)
      requires Valid() && Approved(world, log, first.head, first.body)
      modifies this
      ensures Valid() && NoMerge(old(log), log)
      ensures r.Stop? ==> r.outcome == Refused || r.outcome == RefusedUnrestored || r.outcome == Crashed
      ensures r.Go? ==> Approved(world, log, r.current.head, r.current.body)
      ensures r.Go? && r.pending.Restore? ==>
                YesNo(r.pending.previous) && options.confirm && RequiresRecheck(first.body)
      ensures r.Go? && r.pending.Nothing? ==> r.current == first && !RequiresRecheck(first.body)
      ensures Quiet(world) && first == old(pr) ==>
                if r.Go? then r.current == pr && Underway(first, r.pending, pr)
                else r.outcome == Crashed || (r.outcome == Refused && IsUndone(first, pr))
      ensures r.Go? && r.pending.Restore? ==>
                FlaggedThenReviewed(world, log, |old(log)|, first.body, r.current) && PreviewPassed(world, first.body)
      ensures Quiet(world) && first == old(pr) ==> pr == first || PreviewPassed(world, first.body)
      ensures !(r.Stop? && r.outcome == Crashed) ==> NoCrash(old(log), log)
      ensures Quiet(world) && first == old(pr) && r.Stop? && r.outcome == Crashed ==>
                && |log| > |old(log)| && CrashedOn(log, pr)
                && pr == first.(body := pr.body) && SetStatus(first.body, "yes") == SomeLines(pr.body)
                && (IsUndone(first, pr) <==> !LeftRecorded(first.body, pr.body))
      ensures first == old(pr) && ReviewsWith(world, Flagged(first.body), SAFE_APPROVAL) ==>
                forall issue :: Smooth(world, issue) && Passable(world, issue, options.confirm, first.body) ==> r.Go?
      ensures first == old(pr) && RequiresRecheck(first.body) && ReviewsWith(world, Flagged(first.body), ReviewCrashes) ==>
                forall issue :: Smooth(world, issue) && Passable(world, issue, options.confirm, first.body) ==>
                  r == Stop(Crashed)
    {
      hide SafeMerges, HonestReviews, OwnWrites, RequiresRecheck, SetStatus, ReadStatus, GateHolds, StoredApproval, Undone,
           LeftRecorded, RecordTrace, RecordedTrace, CrashedOn, ReviewsWith, Approves;
      NothingToUndo(first);
      if !RequiresRecheck(first.body) {
        return Go(first, Nothing);
      }
      var preview := SetStatus(first.body, "yes");
      if !options.confirm || preview.NoLines? {
        return Stop(Refused);
      }
      var n := OthersAct();
      if !GateHolds(world.forms, world.issue(n, first.(body := preview.lines)), preview.lines) {
        return Stop(Refused);
      }
      assert PreviewPassed(world, first.body);
      ghost var unflagged := log;
      var record := RecordRecheck(first);
      if record.RecordFails? {
        return Stop(Refused);
      }
      ghost var flagged, recorded := log, pr;
      ghost var i := FlagIsShown(first, unflagged, flagged, record.current);
      var current, pending := record.current, Restore(record.previous);
      if current.head != first.head {
        var o := Refuse(pending, Refused, first);
        return Stop(o);
      }
      r := ReviewAgain(pending, options.post, first);
      if r.Go? {
        assert log[i] == flagged[i];
        assert FlaggedThenReviewed(world, log, |old(log)|, first.body, r.current);
      } else if Quiet(world) && first == old(pr) {
        RecordedIsUndoneExactly(first, record.previous, recorded);
      }
    }

    lemma FlagIsShown(meta: Pr, before: Log, after: Log, current: Pr) returns (i: nat)
      requires before <= after && RecordTrace(meta, after[|before|..]) && RecordedTrace(meta, after[|before|..], current)
      ensures |before| <= i < |after| && ShowsFlag(meta.body, after[i])
    {
      hide SetStatus;
      var events := after[|before|..];
      i := |before| + if |events| == 3 then 1 else 0;
      assert after[i] == events[i - |before|];
    }

    /** The review of the description with the recorded recheck. */
    method ReviewAgain(pending: Pending, post: bool, ghost before: Pr) returns (r: Step)
      requires Valid() && pending.Restore? && YesNo(pending.previous)
      modifies this
      ensures Valid() && NoMerge(old(log), log)
      ensures r.Stop? ==> r.outcome == Refused || r.outcome == RefusedUnrestored || r.outcome == Crashed
      ensures r.Go? ==> r.pending == pending && Approved(world, log, r.current.head, r.current.body)
      ensures Quiet(world) && Underway(before, pending, old(pr)) ==>
                if r.Go? then r.current == pr && pr == old(pr)
                else r.outcome == Crashed || (r.outcome == Refused && IsUndone(before, pr))
      ensures r.Go? ==>
                && |log| >= |old(log)| + 2 && log[|log| - 1] == Read(r.current)
                && Approves(world, log[|log| - 2], r.current.head, r.current.body)
      ensures !(r.Stop? && r.outcome == Crashed) ==> NoCrash(old(log), log)
      ensures r.Stop? && r.outcome == Crashed && Quiet(world) ==>
                |log| > |old(log)| && CrashedOn(log, pr) && pr == old(pr)
      ensures Underway(before, pending, old(pr)) && ReviewsWith(world, old(pr).body, SAFE_APPROVAL) ==>
                forall issue :: Smooth(world, issue) ==> r.Go?
      ensures ReviewsWith(world, old(pr).body, ReviewCrashes) ==>
                forall issue :: Smooth(world, issue) ==> r == Stop(Crashed)
    {
      hide SafeMerges, HonestReviews, OwnWrites, SetStatus, ReadStatus, StoredApproval, Undone;
      var run := ReviewOnce(post);
      if run.RunCrashes? {
        return Stop(Crashed);
      }
      if run.RunFails? || !run.verdict.approve || !run.verdict.safe {
        var o := Refuse(pending, Refused, before);
        return Stop(o);
      }
      ghost var saved := log[|log| - 1];
      var read := PrMeta();
      if read.ReadFails? {
        return Stop(Crashed);
      }
      var current := read.pr;
      if current.head != run.meta.head || current.body != run.meta.body {
        var o := Refuse(pending, Refused, before);
        return Stop(o);
      }
      assert log[|log| - 2] == saved && Approves(world, saved, current.head, current.body);
      r := Go(current, pending);
    }

    /** The artifact gate on the current description. */
    method PassArtifacts(current: Pr, pending: Pending, ghost before: Pr) returns (r: Step)
      requires Valid() && (pending.Restore? ==> YesNo(pending.previous))
      modifies this
      ensures Valid() && NoMerge(old(log), log) && NoCrash(old(log), log)
      ensures r.Stop? ==> r.outcome == Refused || r.outcome == RefusedUnrestored
      ensures r.Go? ==> r.current == current && r.pending == pending && CheckedArtifacts(world, log, current.body)
      ensures Quiet(world) && Underway(before, pending, old(pr)) ==>
                if r.Go? then pr == old(pr) else r.outcome == Refused && IsUndone(before, pr)
      ensures Quiet(world) && pending.Nothing? ==> pr == old(pr)
      ensures Underway(before, pending, old(pr)) ==> forall issue :: Smooth(world, issue) ==> r.Go?
    {
      hide SafeMerges, HonestReviews, OwnWrites, SetStatus, ReadStatus, Undone;
      if world.artifactsApply(current.body) {
        var n := OthersAct();
        if !world.artifacts(n, current).GatePasses? {
          var o := Refuse(pending, Refused, before);
          return Stop(o);
        }
        Note(ArtifactsPassed(n, current));
        assert log[|log| - 1] == ArtifactsPassed(n, current);
      }
      r := Go(current, pending);
    }

    /** The integration gate on the current description, live state included. */
    method PassIntegration(current: Pr, pending: Pending, ghost before: Pr) returns (r: Step)
      requires Valid() && (pending.Restore? ==> YesNo(pending.previous))
      modifies this
      ensures Valid() && NoMerge(old(log), log) && NoCrash(old(log), log)
      ensures r.Stop? ==> r.outcome == Refused || r.outcome == RefusedUnrestored
      ensures r.Go? ==> r.current == current && r.pending == pending && GatedBody(world, log, current.body)
      ensures Quiet(world) && Underway(before, pending, old(pr)) ==>
                if r.Go? then pr == old(pr) else r.outcome == Refused && IsUndone(before, pr)
      ensures Quiet(world) && pending.Nothing? ==> pr == old(pr)
      ensures Underway(before, pending, old(pr)) ==>
                forall issue :: Smooth(world, issue) && GateHolds(world.forms, Issue(issue), current.body) ==> r.Go?
    {
      hide SafeMerges, HonestReviews, OwnWrites, SetStatus, ReadStatus, Undone, GateHolds, RequiresRecheck;
      var n := OthersAct();
      var issue := world.issue(n, current);
      if !GateHolds(world.forms, issue, current.body)
         || (RequiresRecheck(current.body) && !world.live(n, PrPayload(current.body)))
      {
        var o := Refuse(pending, Refused, before);
        return Stop(o);
      }
      GateNeedsIssue(world.forms, issue, current.body);
      Note(GatePassed(n, current, issue.canonical));
      assert Gated(world, log[|log| - 1], current.body);
      r := Go(current, pending);
    }

    lemma GateNeedsIssue(forms: RefForms, issue: IssueState, body: Lines)
      requires GateHolds(forms, issue, body)
      ensures issue.Issue?
    {
    }

    /** The last read, the checks and the merge command. */
    method MergeCurrent(current: Pr, pending: Pending, ghost before: Pr) returns (r: Outcome)
      requires Valid() && (pending.Restore? ==> YesNo(pending.previous))
      requires Cleared(world, log, current.head, current.body)
      modifies this
      ensures Valid() && old(log) <= log && NoCrash(old(log), log)
      ensures r == Refused || r == Crashed ==> NoMerge(old(log), log)
      ensures r == Merged ==> |log| == |old(log)| + 3 && log[|log| - 1] == MergeIssued(current.head)
                              && log[|log| - 3].Read? && log[|log| - 3].pr.head == current.head
                              && log[|log| - 3].pr.body == current.body && pr.head == current.head
      ensures Quiet(world) && current == old(pr) && Underway(before, pending, old(pr)) ==>
                if r == Merged then pr == old(pr) else (r == Refused || r == MergeFailed) && IsUndone(before, pr)
      ensures Quiet(world) && pending.Nothing? ==> pr == old(pr)
      ensures current == old(pr) && Underway(before, pending, old(pr)) ==>
                forall issue :: Smooth(world, issue) ==> r == Merged
    {
      hide SafeMerges, HonestReviews, OwnWrites, SetStatus, ReadStatus, Undone, Cleared, IsUndone, Underway;
      ghost var soFar := log;
      var read := PrMeta();
      if read.ReadFails? {
        return Crashed;
      }
      var latest := read.pr;
      if latest.head != current.head || latest.body != current.body {
        r := Refuse(pending, Refused, before);
        return;
      }
      var checks := AllChecksPass();
      if checks != ChecksRead(true) {
        r := Refuse(pending, Refused, before);
        return;
      }
      assert (log + [MergeIssued(latest.head)])[..|log| - 2] == soFar;
      var ok := Merge(latest.head);
      if !ok {
        r := Refuse(pending, MergeFailed, before);
        return;
      }
      r := Merged;
    }

    /** The gates and the merge of a description whose verdict stands. */
    method MergeReviewed(current: Pr, pending: Pending, ghost before: Pr) returns (r: Outcome)
      requires Valid() && (pending.Restore? ==> YesNo(pending.previous))
      requires Approved(world, log, current.head, current.body)
      modifies this
      ensures Valid() && old(log) <= log && NoCrash(old(log), log)
      ensures r == Refused || r == Crashed ==> NoMerge(old(log), log)
      ensures r == Merged ==> |log| >= |old(log)| + 3 && log[|log| - 1] == MergeIssued(pr.head)
                              && log[|log| - 3].Read? && log[|log| - 3].pr.body == current.body
      ensures Quiet(world) && current == old(pr) && Underway(before, pending, old(pr)) ==>
                if r == Merged then pr == old(pr) else (r == Refused || r == MergeFailed) && IsUndone(before, pr)
      ensures Quiet(world) && pending.Nothing? ==> pr == old(pr)
      ensures current == old(pr) && Underway(before, pending, old(pr)) ==>
                forall issue :: Smooth(world, issue) && GateHolds(world.forms, Issue(issue), current.body) ==> r == Merged
    {
      hide SafeMerges, HonestReviews, OwnWrites, SetStatus, ReadStatus, GateHolds, Approved, CheckedArtifacts, GatedBody,
           Undone, NoMerge, NoCrash, IsUndone;
      ghost var reviewed := log;
      var third := PassArtifacts(current, pending, before);
      LogsGrow(reviewed, log);
      if third.Stop? {
        return third.outcome;
      }
      ghost var checked := log;
      var fourth := PassIntegration(current, pending, before);
      LogsGrow(checked, log);
      CalmThen(reviewed, checked, log);
      if fourth.Stop? {
        return fourth.outcome;
      }
      ApprovedGrows(world, reviewed, log, current.head, current.body);
      CheckedArtifactsGrow(world, checked, log, current.body);
      ghost var gated := log;
      r := MergeCurrent(current, pending, before);
      CrashesStayOut(reviewed, gated, log);
    }

    /** Merges the pull request if that is safe.  The log promises the safety of
        every merge that is issued (see `Valid`), and a refusal issues none.  When
        nobody interferes, a run that does not merge leaves the description as it
        was but for the spelling of the recheck, if and only if it has not crashed
        in the review of the flagged description; it touches the description only
        if the flagged one passed the gate; and when nothing speaks against it the
        merge happens. */
    method MergeIfSafe(options: Options) returns (r: Outcome)
      requires Valid()
      modifies this
      ensures Valid() && old(log) <= log
      ensures r == Refused || r == Crashed ==> NoMerge(old(log), log)
      ensures r == Merged ==> |log| >= 3 && log[|log| - 1] == MergeIssued(pr.head) && log[|log| - 3].Read?
      ensures r == Merged ==> exists j :: |old(log)| <= j < |log| && log[j].Read? && !log[j].pr.draft
      ensures r == Merged && !options.confirm ==> !RequiresRecheck(log[|log| - 3].pr.body)
      ensures Quiet(world) ==> r != RefusedUnrestored
      ensures Quiet(world) && r != Merged ==>
                (IsUndone(old(pr), pr) <==>
                 !(ReadStatus(old(pr).body) == Status("no") && FlaggedReviewCrashed(old(log), log, old(pr).body)))
      ensures Quiet(world) && FlaggedReviewCrashed(old(log), log, old(pr).body) ==>
                r == Crashed && pr == old(pr).(body := log[|log| - 1].meta.body)
      ensures Quiet(world) ==> pr == old(pr) || PreviewPassed(world, old(pr).body)
      ensures Quiet(world) && r == Merged ==>
                pr == old(pr) || (ReadStatus(old(pr).body).Status? && pr == old(pr).(body := pr.body)
                                  && SetStatus(old(pr).body, "yes") == SomeLines(pr.body))
      ensures Reviewable(world, options, old(pr)) && ReviewsWith(world, old(pr).body, SAFE_APPROVAL) ==>
                forall issue ::
                  Smooth(world, issue) && Passable(world, issue, options.confirm, old(pr).body) ==>
                    && (ReviewsWith(world, Flagged(old(pr).body), SAFE_APPROVAL) ==> r == Merged)
                    && (RequiresRecheck(old(pr).body) && ReviewsWith(world, Flagged(old(pr).body), ReviewCrashes) ==>
                          && r == Crashed && pr == old(pr).(body := Flagged(old(pr).body))
                          && (pr != old(pr) ==> FlaggedReviewCrashed(old(log), log, old(pr).body)))
    {
      hide SafeMerges, HonestReviews, OwnWrites, RequiresRecheck, SetStatus, ReadStatus, GateHolds, Approved, CheckedArtifacts,
           GatedBody, Undone, Reviewable, LeftRecorded, CrashedOn, ReviewsWith, PreviewPassed, FlaggedThenReviewed, IsUndone,
           NoMerge, NoCrash, FlaggedReviewCrashed;
      NothingToUndo(pr);
      var first := ObtainVerdict(options);
      LogsGrow(old(log), log);
      if first.Stop? {
        if first.outcome != Crashed {
          CalmHasNoFlaggedCrash(old(log), log, old(pr).body);
        } else if Quiet(world) {
          CrashOnFlagged(old(log), log, pr.body, pr);
        }
        return first.outcome;
      }
      ghost var before, obtained := first.current, log;
      ghost var start := |log| - 1;
      assert log[start] == Read(before) && start >= |old(log)|;
      var second := RecordAndReview(first.current, options);
      CalmThen(old(log), obtained, log);
      if second.Stop? {
        if second.outcome != Crashed {
          CalmHasNoFlaggedCrash(old(log), log, old(pr).body);
        } else if Quiet(world) {
          CrashOnFlagged(old(log), log, before.body, pr);
        }
        return second.outcome;
      }
      ghost var reviewed := log;
      r := MergeReviewed(second.current, second.pending, before);
      LastIsCalm(old(log), reviewed, log, old(pr).body);
      assert log[start] == Read(before) by { LogsGrow(obtained, reviewed); }
    }
  }
}
