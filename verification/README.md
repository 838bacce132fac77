# Verified models of Syvert

Syvert runs batches of tasks against platform adapters and guards its own
repository with a set of checks. This project models the parts of it that make
a promise over a whole run, a whole text or a whole protocol, and proves those
promises.

**Batch execution** (`Refs`, `Batch*`). A batch request names target items, a
dataset sink and perhaps a resume token. The runner walks the items, skips
repeated dedup keys, calls an item executor, publishes a sanitised outcome, and
writes successes to a first-wins sink. It may stop with a token; a later call
validates the token, the outcomes handed in and the sink, and continues.
`Batch` holds the carriers and validators, `BatchRun` the run as a function,
`BatchRunner` and `BatchSink` the same over mutable objects. The main results
are `ResumeEquivalence`, `ChainAgrees`, `ChainEnvelopesAreAccepted` and
`EmittedEnvelopeIsAccepted`.

**The guarded merge** (`Integration*`, `Guardian*`). A pull request description
carries an integration section. It is printed, edited in place at merge time,
parsed back and validated; the merge guard reads the pull request again and
again while others may change it before every call. `GuardianMerge` models the
guard as methods of a remote pull request whose log records every read, write,
review and merge; what others do is an arbitrary function of the call number.
The main results are `MergeIfSafe`, `MergesAreReviewed`,
`OpenedPrintedRecheckedMerged`, `UndoneKeepsFields` and `MergeGateIsExact`.

**The alias analysis** (`Alias*`). A small abstract interpreter keeps a history
of assignments for each scope and resolves names at a position, with strong
updates on straight lines and weak ones in branches. `AliasValues` says what
expressions evaluate to and which part each target name takes, `AliasRuns` what
runs of a scope may bind, loops included, `AliasStatements` which runs the
executions of a statement tree are. The main results are `SoundExactly`,
`ExactExactly`, `ModuleAliasesAreExact`, `FunctionAliasesAreSound` and
`ExecutionsAreCovered`; `AliasDecision` computes the names that runs derive and
decides by them; `AliasGaps` holds the programs for which the analysis misses a
name or reports one too many.

**Smaller cores.** A graph search with a shared visited set (`GraphSearch`), an
indentation parser over aliased dictionaries (`FrontMatter`,
`FrontMatterParser`), a recursive leakage scanner with its token test
(`LeakageNames`, `LeakageGuard`), profile matching and evidence sorting
(`Unique`, `Compatibility`), a release gate (`Operability`,
`OperabilityRespelling`, with its values and evidence in `OperabilityJson` and
`OperabilityEvidence`) and the removal of fenced blocks with the metadata read
afterwards (`Fences`, `Metadata`). `Text` holds the character operations they
share.

Where the code mutates an object or loops over state, the model has a class or
a loop, proved against a function whose properties are then proved as lemmas.
Where a promise turned out not to hold for every input, a lemma gives an input
that breaks it and another says exactly when it holds:

- a resume may be admitted with prior outcomes whose envelope is then refused
  (`ForeignCursorIsAdmitted`, `EmittedEnvelopeIsAccepted`);
- a run cut short with an unacceptable stop reason raises an error only after
  its items were executed and written (`RunReturnsExactly`);
- the merge-time edit may change the text of another field
  (`ContinuationLineIsHit`, `EditKeepsOtherFieldsExactly`), though after a passed
  preview it can only be the reference (`GatedEditsHitNothing`);
- recording the recheck, rolling it back and restoring it can each overwrite an
  outside edit (`RecordingLosesInAnyWorld`, `RestoringLosesInAnyWorld`,
  `RecordingLosesExactly`, `RestoringLosesExactly`), and a crash of the second
  review leaves the recheck recorded (`MergeIfSafe`, `RecordedIsUndoneExactly`);
- the alias analysis misses names in functions: one that the module binds to a
  platform only later in the file (`LateModuleNameIsMissed`), one that holds a
  platform when the function is called in the middle of the module
  (`MidModuleCallIsMissed`), one of the enclosing function
  (`EnclosingAliasIsMissed`); anywhere it misses a getter chosen by a conditional
  expression (`ConditionalGetterIsMissed`, `EvaluationsAreCoveredExactly`), a name
  under a star (`StarredNameIsMissed`), what a loop carries into its next round
  (`LoopCarriedAliasIsMissed`) and what a with body leaves standing when an
  exception is swallowed (`SuppressedBodyIsMissed`); `SoundExactly` gives the
  condition, and `ComputationDecides`, `FunctionComputationDecides` and
  `ModuleFoldsDecide` ways to compute it;
- unpacking a display makes all its names aliases (`UnpackedDisplayIsTooMuch`,
  `ExactExactly`, `ModuleAliasesAreExact`);
- the release gate compares expected values with the frozen ones as printed, so
  a run may pass with a text in the place of a number, truth value or list, if
  its artifact has the text too (`TextPassesForTruth`, `RespelledRunPasses`,
  `RespellingAloneIsNoticed`, `SpellingMatters`).

The guard saves a verdict for the head it read before it fetched the tree to
review. The tree is that of the approved head if a replaced head never comes
back; `MergeIfSafe` states the approval with that proviso,
`ReturningHeadIsApproved` shows that it is needed, and `ReviewOnce` says which
tree is reviewed in general.

What the models cannot see is a parameter: the item executor is a function of
the calls made so far, the target-set digest and the description fingerprint are
functions that are injective where a result needs it, and opaque predicates
stand for the validation of success payloads, comment cursors and media
policies, for the forms of an integration reference, the printing of lists and
mappings, and for the answers of the review, the artifact gate, the checks and the server.

## Model

| member | source | states |
|---|---|---|
| Refs.JoinSanitized | syvert/batch_dataset.py:1827-1851 | Two texts accepted as references stay acceptable when joined by a colon, for every pair of texts: no forbidden token, scheme, relative path or drive letter can arise across the joint. |
| Refs.SanitizedIsPublic | syvert/batch_dataset.py:1943-1968 | Every accepted reference also passes the sanitizer for free public text. |
| BatchRules.CoreRulesAreLawful | syvert/batch_dataset.py:1827-1968 | The concrete sanitizers meet the five laws the batch proofs rely on: accepted references are public texts that are not blank, they are closed under joining, Core's prefixes and stop codes and all decimal numbers are accepted, and every word Core writes itself is public. |
| BatchFacts.RequestIsValid | syvert/batch_dataset.py:485-513 | A request accepted by request validation yields accepted target items, so later stages never reject an identifier that was accepted at the door. |
| BatchFacts.DatasetIdIsAccepted | syvert/batch_dataset.py:1263-1268 | The dataset id, given or derived from the batch id, is always an acceptable reference. |
| BatchFacts.UnsafeOutcomeIsPublic | syvert/batch_dataset.py:1191-1204 | The replacement for an unsafe outcome is itself a valid outcome of its item, under every cursor and for every public code. |
| BatchFacts.PublishedIsValid | syvert/batch_dataset.py:1176-1182 | Whatever Core publishes for an accepted item is valid for that item, under the item's own cursor and under the cursor it carries. |
| BatchFacts.SkippedIsPublished | syvert/batch_dataset.py:408-442 | A duplicate is always published as skipped and never replaced by an unsafe outcome. |
| BatchFacts.WrittenIsPublished | syvert/batch_dataset.py:981-1037 | A success validated before its record was written passes validation again with the record id attached. |
| BatchFold.WriteSettles | syvert/batch_dataset.py:916-1037 | A written success is never downgraded: if the sink took the record, the published outcome succeeded and names that record; otherwise nothing was written. |
| BatchFold.ItemSettles | syvert/batch_dataset.py:916-1037 | For every executor answer: the item's outcome is valid for it, a record is appended exactly when the outcome succeeded with a sink, and the outcome points to it. |
| BatchFold.StepIsGood | syvert/batch_dataset.py:408-458 | Every step of the walk publishes a valid outcome of its item and appends to the sink at most that item's record. |
| BatchFold.StepCalls | syvert/batch_dataset.py:408-442 | The executor is called exactly for the first occurrence of a dedup key, with the request built from that item. |
| BatchEnvelope.TerminalIsAccepted | syvert/batch_dataset.py:459-482 | A finished run's envelope passes the envelope validator. |
| BatchEnvelope.ResumableIsAccepted | syvert/batch_dataset.py:1101-1137 | An interrupted run's envelope, token included, passes the envelope validator. |
| BatchEnvelope.IssuedTokenIsAccepted | syvert/batch_dataset.py:1101-1137 | The token issued behind k items passes token validation whenever k lies strictly inside the target set. |
| BatchTheorems.RunFollowsFold | syvert/batch_dataset.py:408-482 | A run from any position stands, when it stops, exactly where one fold over the processed items stands: same outcomes, same calls, same sink. |
| BatchTheorems.CallsAreFirstOccurrences | syvert/batch_dataset.py:408-442 | Over a whole run the executor calls are the first occurrences of the dedup keys, in target order. |
| BatchTheorems.ResumeIsAdmitted | syvert/batch_dataset.py:1140-1153 | Whatever a run hands out the next run takes: token, outcome prefix and sink contents are all accepted on resume. |
| BatchTheorems.ResumeEquivalence | syvert/batch_dataset.py:367-482 | However a batch is cut into runs, by the caller or by interrupting items, the chain makes the same executor calls in the same order and ends with the same outcomes, sink records and terminal status as one uninterrupted fold; with progress in every run it finishes. |
| BatchTheorems.FoldAgrees | syvert/batch_dataset.py:916-1037 | Sink and outcomes agree after every prefix of the batch: an item has a record exactly when its outcome succeeded, and the outcome carries that record's id. |
| BatchTheorems.ChainAgrees | syvert/batch_dataset.py:367-482 | The same agreement after every chain of runs that starts without records of the batch, and no other record of the batch exists. |
| BatchTheorems.ChainEnvelopesAreAccepted | syvert/batch_dataset.py:625-725 | Every run of every chain returns an envelope that the envelope validator accepts. |
| BatchTheorems.RunReturnsExactly | syvert/batch_dataset.py:1101-1112 | A run returns an envelope if and only if its stop reason is an acceptable reference or the caller's cut is not what ends it; either way its calls and records are those of the fold, so a bad reason loses the envelope of work already done. |
| BatchTheorems.ChainProgresses | syvert/batch_dataset.py:443-458 | A chain whose runs may each process an item reaches at least as many items as it has runs, or the end. |
| BatchAdmission.EmittedEnvelopeIsAccepted | syvert/batch_dataset.py:625-725 | For every accepted call, forged prior outcomes included, the returned envelope validates if and only if each prior outcome is valid under the cursor context it carries itself. |
| BatchAdmission.ForeignCursorIsAdmitted | syvert/batch_dataset.py:1336-1438 | The condition is needed: every accepted resume with a result among its prior outcomes can be given a foreign cursor context there; the call is accepted all the same, does the same work, and emits an envelope its own validators refuse. |
| BatchAdmission.AdmissionGuarantees | syvert/batch_dataset.py:1336-1469 | What an accepted resume has proved about its outcome prefix and the sink: position, item identity and records agree. |
| BatchAdmission.AcceptedCallAgrees | syvert/batch_dataset.py:1336-1469 | After any accepted call of a sink-bound batch the sink and the outcomes agree, even if the prior outcomes were forged. |
| BatchAdmission.ResumeExecutesNothingRecorded | syvert/batch_dataset.py:1441-1469 | An accepted resume with a bound sink executes no item that already has a record of the batch. |
| BatchAdmission.TokenBindsItsBatch | syvert/batch_dataset.py:1140-1153 | A token is accepted only by the batch, target set and dataset it was issued for, and points strictly inside that target set; different target sets are told apart by their digests. |
| BatchSink.ReferenceDatasetSink.Write | syvert/batch_dataset.py:314-333 | Appends an acceptable record and updates both index sets; refuses every other record with the code of the first failed rule and changes nothing. |
| BatchSink.ReferenceDatasetSink.ReadByDataset | syvert/batch_dataset.py:335-337 | Returns the records of one dataset, in insertion order, and nothing else. |
| BatchSink.HistoryIsFirstWins | syvert/batch_dataset.py:308-358 | Over every history of writes record ids and dedup identities stay unique, stored records never change or move, only acceptable attempts are added, and each acceptable attempt finds its place taken. |
| BatchSink.FirstIsKept | syvert/batch_dataset.py:314-333 | The first acceptable attempt at a free place is the one kept, whatever follows. |
| BatchSink.ReadBack | syvert/batch_dataset.py:335-341 | A record is read back from a dataset exactly when it is stored and belongs to it. |
| BatchRunner.ProcessItem | syvert/batch_dataset.py:408-442 | One loop iteration, in place: skip or execute, settle, write to the sink object; the new state of executor and sink is that of the specified step. |
| BatchRunner.ExecuteBatchRequest | syvert/batch_dataset.py:367-482 | The imperative runner over a mutable executor and sink returns the specified result and leaves both in the specified state, for fresh and resumed calls and for every error path. |
| IntegrationContract.NormalizesToNone | scripts/common.py:262-291 | A reference normalises to none exactly when it is the word none in any case, whatever forms of reference are recognised. |
| IntegrationContract.OpenGateIsExact | scripts/integration_contract.py:440-483 | A payload may open a pull request if and only if its choices are valid, the merge-time check is not yet recorded, it matches its issue and it is either wholly local or integrated. |
| IntegrationContract.MergeGateIsExact | scripts/integration_contract.py:486-552 | A payload passes the merge gate if and only if no field is missing, choices are valid, it matches its issue and it is wholly local, or integrated with the recheck recorded when demanded. |
| IntegrationContract.OpenedThenRecheckedPassesGate | scripts/integration_contract.py:440-552 | A payload that could open a pull request passes the merge gate, recheck demanded, once the recheck is set in it. |
| IntegrationText.ParseIntegrationCheckPayload | scripts/integration_contract.py:272-299 | The line loop over payload, current key and closed flag computes the specified parse. |
| IntegrationText.ParseConcat | scripts/integration_contract.py:272-299 | Parsing is compositional: a text is parsed from the state its beginning leaves behind. |
| IntegrationText.ParseRenderedLines | scripts/open_pr.py:625-628 | Printed field lines are parsed back to exactly the printed fields. |
| IntegrationEdit.FlagLineParts | scripts/pr_guardian.py:667-676 | Every line the editor recognises is margin, dash, field name in any case, optional hint, colon and yes or no, in that order. |
| IntegrationEdit.ComposedIsFlagLine | scripts/pr_guardian.py:667-676 | Every line put together from such parts is recognised, with exactly that value. |
| IntegrationEdit.SetFlagTwice | scripts/pr_guardian.py:667-676 | Recording one value and then another is recording the second: the edit finds the same line again. |
| IntegrationEdit.SetFlagOfRendered | scripts/pr_guardian.py:667-676 | Editing a printed section gives the print of the payload with the new value. |
| IntegrationRestore.EditKeepsOtherFieldsExactly | scripts/pr_guardian.py:667-676 | Over every section, an edit leaves all other parsed fields alone if and only if the edited line is not text of another field that is still in force. |
| IntegrationRestore.ContinuationLineIsHit | scripts/pr_guardian.py:667-676 | The condition is needed: a recheck line without a blank behind its dash, indented under another field, is text of that field for the parser and the recheck for the editor. |
| IntegrationRestore.RecordingTheReadValue | scripts/pr_guardian.py:679-691 | Recording the value that was read never changes the value that is read, wherever the edited line stands and however often the field occurs. |
| IntegrationRestore.RestoreUndoesRecord | scripts/pr_guardian.py:734-740 | Recording yes and then restoring the value read before gives that value back, and the other fields if and only if restoring does not hit another field's text. |
| IntegrationSection.PayloadOfOneSection | scripts/integration_contract.py:241-256 | With a single section, extraction by headings, right stripping and trimming yields the fields of exactly the lines the guardian edits. |
| IntegrationSection.StatusOfOneSection | scripts/pr_guardian.py:650-691 | With a single section, setting and reading the status in a description is setting and reading it in the section. |
| IntegrationSection.EditedBody | scripts/pr_guardian.py:650-676 | Setting the status changes one line of the section, nothing outside it, and leaves the section where it was. |
| IntegrationSection.SetStatusTwice | scripts/pr_guardian.py:667-676 | In any description the last recorded status is the one that counts. |
| IntegrationSection.RestoreUndoes | scripts/pr_guardian.py:734-740 | In any description, recording yes and restoring the status read before is possible and undoes the recording. |
| IntegrationSection.UndoneKeepsStatus | scripts/pr_guardian.py:734-740 | An undone recording leaves the status, the section's place and all text outside it as they were, and the other fields if and only if the written line is not text of another field. |
| IntegrationUndo.GatedEditsHitNothing | scripts/pr_guardian.py:617-642 | Once the section with the recheck recorded has passed the merge gate, no edit of the recheck can change a field with listed values; it can change the reference only if the recognised forms of references admit a text that names the recheck. |
| IntegrationUndo.UndoneKeepsFields | scripts/pr_guardian.py:734-740 | In a description with one section, undoing keeps every other field as the parser reads it if and only if nothing is hit; after a passed preview only the reference can differ, and with sane reference forms nothing does. |
| IntegrationSection.RestoreAfterOutsideEdits | scripts/pr_guardian.py:734-740 | Restoring in a description that others edited meanwhile leaves everything outside the section alone, and the other fields if and only if the written line is not text of another field. |
| IntegrationEndToEnd.PrintedIsParsed | scripts/integration_contract.py:272-299 | A printed section with introduction and closing lines parses to the payload. |
| IntegrationEndToEnd.OpenedPrintedRecheckedMerged | scripts/open_pr.py:767-785 | A payload accepted for opening, printed, edited to yes and parsed keeps every other field, reads as yes and passes the merge gate with the recheck demanded; setting no again gives the print without it. |
| Guardian.SavedVerdictIsReusedExactly | scripts/pr_guardian.py:225-288 | A saved verdict is reused for exactly the pull request, head and description it was given for. |
| Guardian.GateIsExact | scripts/pr_guardian.py:617-642 | The integration gate on a description holds if and only if it has no fields for an issue without any, or its complete, valid, matching fields are wholly local or integrated with the recheck recorded. |
| GuardianMerge.StoredPayloadIsBound | scripts/pr_guardian.py:1365-1395 | A verdict reused without a fresh review is of the body-bound schema and carries the fingerprint of the description at hand. |
| GuardianMerge.PullRequest.ReviewOnce | scripts/pr_guardian.py:1340-1362 | The saved verdict names the head and description that were read; the reviewed tree is that of the head at the later fetch. |
| GuardianMerge.RecordedIsUndoneExactly | scripts/pr_guardian.py:694-740 | A recorded recheck counts as undone if and only if it is not left recorded where the status was no before. |
| GuardianMerge.RecordingLosesExactly | scripts/pr_guardian.py:694-721 | Of every run of recording: a single outside edit is overwritten by one of its writes if and only if it falls between read and write, or between the write and a roll-back, and leaves a text that the run had not seen. |
| GuardianMerge.RecordingLosesInAnyWorld | scripts/pr_guardian.py:694-721 | Of every run of recording, however often others edit: an edit is overwritten if and only if the text at the write is not the one read, or the text at a roll-back is neither that nor the one written. |
| GuardianMerge.RestoringLosesInAnyWorld | scripts/pr_guardian.py:734-740 | Of every run of restoring, however often others edit: an edit is overwritten if and only if the text at the write is not the one read. |
| GuardianMerge.RestoringLosesExactly | scripts/pr_guardian.py:734-740 | Of every run of restoring: a single outside edit is overwritten if and only if it falls between the read and the write and changes what was read. |
| GuardianMerge.PullRequest.RecordRecheck | scripts/pr_guardian.py:694-721 | In every world: at most one read, then at most one write, of the description it was called with and has just read again unchanged, with the recheck set to yes, then another read or the roll-back to the old description; each write notes the text it replaced, and an outside edit is lost exactly in the two windows; success ends with the description read last and the status before; undisturbed, a failure changes nothing. |
| GuardianMerge.PullRequest.RestoreRecheck | scripts/pr_guardian.py:734-740 | In every world, success or failure: at most one read and then at most one write, of the description just read with the previous value recorded, and none if that changes nothing; the write lands on what others have made of the description since, so an outside edit is lost exactly in that window. |
| GuardianMerge.PullRequest.Refuse | scripts/pr_guardian.py:743-747 | A refusal tries to restore exactly when a recheck was recorded, and reports it when that fails; undisturbed, it undoes the recording. |
| GuardianMerge.PullRequest.Merge | scripts/pr_guardian.py:1546-1567 | The server merges only while the head is the expected one; the command may be issued only after the last read and passing checks, for an approved and gated description. |
| GuardianMerge.PullRequest.ObtainVerdict | scripts/pr_guardian.py:1365-1410 | Continues only with a safe approval of exactly the head and description last read, which was no draft. |
| GuardianMerge.PullRequest.RecordAndReview | scripts/pr_guardian.py:1411-1473 | In every world, when the gate demands a recheck, continues only if it was confirmed, the flagged description passed the gate, the flag was found or written, and behind that a new review safely approved the head and description last read; undisturbed, it stops without undoing only if that review crashed. |
| GuardianMerge.PullRequest.PassArtifacts | scripts/pr_guardian.py:1474-1498 | Continues only if the artifact gate passed on the current description, where it applies. |
| GuardianMerge.PullRequest.PassIntegration | scripts/pr_guardian.py:1499-1508 | Continues only if the integration gate, live state included, passed on the current description for the issue as it was answered. |
| GuardianMerge.PullRequest.MergeCurrent | scripts/pr_guardian.py:1509-1567 | Issues the merge only after a last read with unchanged head and description and passing checks; undisturbed, a refusal or failed command undoes the recording. |
| GuardianMerge.PullRequest.MergeReviewed | scripts/pr_guardian.py:1474-1567 | The gates and the merge of an approved description: a merge is issued for it only, and undisturbed a refusal or a failed command undoes the recording. |
| GuardianMerge.PullRequest.MergeIfSafe | scripts/pr_guardian.py:1365-1567 | Under every interference, every merge ever issued follows the last read and passing checks, is for the head read, and that head and description were safely approved (from that head's tree, if heads never come back) and passed the artifact and integration gates; a merge needs a read that was no draft; refusals issue no merge.  Undisturbed, a run that does not merge undoes the recording if and only if it did not end in a crash of the review of the flagged description where the status had been no; the description is touched only if the flagged one passed the gate; the run merges when nothing speaks against that, and when only that review crashes it ends with the recheck recorded. |
| GuardianRuns.UndoneRunKeepsFields | scripts/pr_guardian.py:1365-1567 | After an undone run of a description with one section every field reads as before, but for the spelling of the recheck and, if the forms of references admit a text naming the recheck, the reference. |
| GuardianRuns.StoredApprovalsAreTraced | scripts/pr_guardian.py:247-317 | Over any number of runs, each starting from the verdict the ones before it left, a reused approval was given by a review of an earlier run to exactly this head and description. |
| GuardianRuns.MergesAreReviewed | scripts/pr_guardian.py:1365-1567 | Over any number of runs, whatever head and description is merged was safely approved by a review of that run or an earlier one. |
| GuardianRuns.ReturningHeadIsNotNoticed | scripts/pr_guardian.py:1340-1362 | A head that is replaced before the fetch and returns behind it cannot be told by the next read, and this is excluded if heads never come back. |
| GuardianRuns.ReturningHeadIsApproved | scripts/pr_guardian.py:1340-1362 | The proviso about trees is needed: with such a head a review saves a safe approval of the head that was given on another head's tree, and the read behind it shows the approved head and description. |
| GraphSearch.PathStaysInside | syvert/real_adapter_regression.py:369-431 | A path cannot leave a closed set of visited nodes, which is what makes a shared visited set sound. |
| GraphSearch.ReachesThrough | syvert/real_adapter_regression.py:369-431 | What a child reaches its parent reaches. |
| GraphSearch.Search.Visit | syvert/real_adapter_regression.py:369-431 | Searching one object with the shared visited set terminates, finds the transport only if it is reachable, and a failed search leaves a visited set that contains all children of what it newly visited. |
| GraphSearch.ReferencesTransport | syvert/real_adapter_regression.py:369-431 | Started with an empty visited set the search returns true if and only if the transport is reachable in the object graph. |
| AliasResolve.ResolveBooleanAlias | syvert/platform_leakage.py:1111-1123 | The loop with early exit computes the last-write resolution of the events in front of a position. |
| AliasResolve.ResolveNames | syvert/platform_leakage.py:1096-1138 | The same for sets of names, the container and path resolvers. |
| AliasResolve.ResolveKeySignal | syvert/platform_leakage.py:1141-1157 | The same for key signals. |
| AliasResolve.ResolveIsLastWrite | syvert/platform_leakage.py:1111-1123 | Resolution is exact: it holds if and only if some path, executing all straight-line and any branch-local events, wrote true last. |
| AliasResolve.ResolvedNamesAreLastWrites | syvert/platform_leakage.py:1096-1138 | A name is in the resolved set if and only if some path's last write contains it. |
| AliasResolve.KeySignalSplits | syvert/platform_leakage.py:1141-1157 | A key signal resolves field by field, so both last-write results apply to it. |
| AliasAnalysis.PlatformishIsMonotone | syvert/platform_leakage.py:1692-1730 | An expression that is platform-derived under some aliases is so under more. |
| AliasAnalysis.BuildHistories | syvert/platform_leakage.py:820-851 | The loop filling the nested history dictionaries computes the specified histories. |
| AliasAnalysis.KnowledgeAfter | syvert/platform_leakage.py:820-873 | What one more assignment does to what is known of a name: strong update on a straight line, weak update in a branch, nothing in another scope. |
| AliasAnalysis.VisibleIsPrefix | syvert/platform_leakage.py:1076-1093 | The events visible at a position are those of the assignments in front of it. |
| AliasValues.EvaluationsAreCoveredExactly | syvert/platform_leakage.py:1692-1730 | An expression has a platform-derived evaluation if and only if the test says so or it hides a getter: a call whose callee, chosen by a conditional or a walrus, may be a get and whose first argument names a platform. |
| AliasValues.CanBindExactly | syvert/platform_leakage.py:1012-1020 | Whether an assignment may give a target name a platform-derived value, read off the expression element by element through displays, conditionals, nested and starred targets and loop items, is whether some evaluation does. |
| AliasRuns.AfterIsDerived | syvert/platform_leakage.py:820-851 | Whatever may hold a platform-derived value behind an assignment does so on some run; one alias is enough for it. |
| AliasRuns.MayHoldIsLeastSolution | syvert/platform_leakage.py:820-851 | The names that some run, with loops repeated at will, brings to a place with a platform-derived value are the least solution of the flow equations over the assignments. |
| AliasTheorems.KnownStep | syvert/platform_leakage.py:854-873 | What the analysis knows behind an assignment is what it knew in front, strongly or weakly updated by the judgement recorded there. |
| AliasTheorems.SoundExactly | syvert/platform_leakage.py:820-873 | For every scope, every family of entry states and all jumps of control: the analysis knows all names that any run binds to platform-derived values, at every position, if and only if it knows the entry names, each assignment that can bind such a name has recorded it or keeps what is known, no loop brings in anything unknown at its start, and nothing that may hold where control may leave a with body is unknown behind it. |
| AliasTheorems.LostBindingsAreExplained | syvert/platform_leakage.py:837-850 | The only ways for a recorded name to be bound unseen: a hidden getter, or an alias the builder did not know when it judged. |
| AliasTheorems.PlainScopesAreCovered | syvert/platform_leakage.py:820-873 | A scope without hidden getters and starred names is covered if the builder knew what the analysis answers, loops know at their start what they know at their end, and what is known inside a with body that may be left is known behind it, all of it readable off the analysis' own answers. |
| AliasTheorems.ExactExactly | syvert/platform_leakage.py:820-873 | The answers are exactly the names that some run binds if and only if they are sound, the entry names are real, and each recorded judgement holds of every name it was recorded for. |
| AliasTheorems.ModuleAliasesAreExact | syvert/platform_leakage.py:820-873 | For module code without loops and swallowed exceptions: the answers are exact at every position if and only if each event says of each name its assignment binds what holds behind it. |
| AliasTheorems.ModuleFoldsDecide | syvert/platform_leakage.py:820-873 | For that code two folds over the text decide, one judging each right-hand side as a whole and one each name's own part: sound if and only if the first has every name of the second everywhere, exact if and only if they are equal. |
| AliasDecision.ComputedIsDerived | syvert/platform_leakage.py:820-851 | The names computed by letting sets grow from nothing until nothing new arrives are exactly those that some run, with loops and early leaves, brings to each place with a platform-derived value. |
| AliasDecision.ComputationDecides | syvert/platform_leakage.py:820-873 | For every scope, with loops and swallowed exceptions: the analysis is sound if and only if it answers every computed name, and exact if and only if it answers no other. |
| AliasDecision.FunctionComputationDecides | syvert/platform_leakage.py:1069-1093 | For a function called at any point of the module the same comparison decides soundness, with what is computed for the module at the call as its only start. |
| AliasTheorems.FunctionAliasesAreSound | syvert/platform_leakage.py:1069-1093 | For a function called at any point of the module: sound at every position if and only if whatever the module may hold at the call is a final alias of the module and the function's own events, loops and with bodies miss nothing. |
| AliasGaps.ConditionalGetterIsMissed | syvert/platform_leakage.py:1722-1730 | A getter chosen by a conditional expression is missed, in an expression and in a run. |
| AliasGaps.LateModuleNameIsMissed | syvert/platform_leakage.py:854-873 | A function's copy of a module name that is bound to a platform only later in the file is missed in the function. |
| AliasGaps.MidModuleCallIsMissed | syvert/platform_leakage.py:1076-1093 | A module name that holds a platform at a call in the middle of the module, and is rebound behind it, is missed in the function called. |
| AliasGaps.EnclosingAliasIsMissed | syvert/platform_leakage.py:1069-1093 | A nested function's copy of a name of the enclosing function is missed. |
| AliasGaps.LoopCarriedAliasIsMissed | syvert/platform_leakage.py:1111-1123 | A name copied in a loop in front of the assignment that makes the original a platform is missed behind the loop. |
| AliasGaps.SuppressedBodyIsMissed | syvert/platform_leakage.py:792-805 | A name bound anew in a with body still holds its platform when the context manager swallows an exception raised in front of that, and is missed behind the body. |
| AliasGaps.StarredNameIsMissed | syvert/platform_leakage.py:1190-1198 | Nothing is recorded for a name under a star, so a list of platforms bound to it is missed. |
| AliasGaps.UnpackedDisplayIsTooMuch | syvert/platform_leakage.py:837-850 | Unpacking a platform and a plain value makes both names aliases though no run binds the second to a platform: sound, but not exact. |
| AliasFixpoint.CollectPlatformAliases | syvert/platform_leakage.py:1160-1187 | Terminates with the least set of names closed under platform-valued assignment. |
| AliasFixpoint.FlowSensitiveIsWithinFixpoint | syvert/platform_leakage.py:854-873 | Every flow-sensitive alias set, at every scope and position, is within the flow-insensitive one. |
| AliasStatements.ExecutionsAreRuns | syvert/platform_leakage.py:792-805 | Every execution of a statement tree is a run: bodies and parts left midway by exceptions, breaks or continues, with bodies left midway when their context manager swallows the exception, loops repeated at will, and the whole stopped at any point; other assignments not classified as branch-local are always executed. The parts of a try statement with except*, straight-line code in the source, are blocks that may be left. |
| AliasStatements.SuppressedBodyJumps | syvert/platform_leakage.py:792-805 | A with statement around one assignment has an execution that leaves in front of it, which is the run of the missed name. |
| AliasStatements.ExecutionsAreCovered | syvert/platform_leakage.py:792-873 | For statement trees: under the exact condition, wherever an execution of a module or function stands, the analysis knows every name that holds a platform-derived value. |
| AliasStatements.PlainModuleExecutions | syvert/platform_leakage.py:792-873 | Module trees without hidden getters and starred names, whose loops know at their start what they know at their end and whose with bodies that may be left know nothing that is unknown behind them, are covered in every execution, at every position. |
| FrontMatter.StackStaysIncreasing | scripts/workflow_contract.py:44-76 | Indentations on the stack grow strictly, over every parse. |
| FrontMatter.PrintedIsParsed | scripts/workflow_contract.py:44-76 | Parsing the printed lines of one level, at any depth, adds exactly its entries to the dictionary open there. |
| FrontMatter.RoundTrip | scripts/workflow_contract.py:26-76 | For every nested mapping with well-formed keys, natural numbers and single-line texts: printing, wrapping in markers, splitting and parsing yields the same mapping and body. |
| FrontMatterParser.PopStack | scripts/workflow_contract.py:65-67 | Popping changes no dictionary; each remaining one is nested in the one below and holds what was read. |
| FrontMatterParser.OpenChild | scripts/workflow_contract.py:69-73 | A new dictionary is stored under its key in the one on top of the stack and becomes the top. |
| FrontMatterParser.Parse | scripts/workflow_contract.py:44-76 | The in-place parser over aliased dictionaries returns a root that holds exactly the entries of the text, or the same error. |
| LeakageNames.NormalizeFixesExactlyNormal | syvert/provider_no_leakage_guard.py:418-421 | Normalisation leaves a name alone if and only if it is words of small letters and digits joined by single underscores. |
| LeakageNames.NormalizeIsIdempotent | syvert/provider_no_leakage_guard.py:418-421 | Name normalisation is idempotent. |
| LeakageNames.TokenTestIsRun | syvert/provider_no_leakage_guard.py:400-406 | The token test holds if and only if the token's segments are a contiguous run of the name's segments, for all texts. |
| LeakageNames.SlugTestIsRun | syvert/provider_no_leakage_guard.py:337-362 | The identity test on dashed slugs is the same test on the words of the two names. |
| LeakageGuard.FieldTestIsRule | syvert/provider_no_leakage_guard.py:323-334 | The test on a key is the rule on its words: not about providers, no run of a forbidden token's words, credential words tolerated in resource lifecycle material. |
| LeakageGuard.TextTestIsRule | syvert/provider_no_leakage_guard.py:372-385 | The test on a text is the corresponding rule on its words. |
| LeakageGuard.IdentityTestIsRule | syvert/provider_no_leakage_guard.py:337-362 | The identity test is the rule on words; the underscore variants add nothing. |
| LeakageGuard.ScanSurface | syvert/provider_no_leakage_guard.py:271-320 | The recursive scan appends to the two lists exactly the paths of the violating keys and texts, in order. |
| LeakageGuard.NodesAreReached | syvert/provider_no_leakage_guard.py:271-320 | The scan meets a key or text if and only if it can be reached from the surface by some sequence of steps. |
| LeakageGuard.BadFieldPathsAreExact | syvert/provider_no_leakage_guard.py:271-320 | A path is reported as a field if and only if a violating key has it. |
| LeakageGuard.BadValuePathsAreExact | syvert/provider_no_leakage_guard.py:271-320 | A path is reported as a value if and only if a violating key or text has it. |
| LeakageGuard.GuardCore | syvert/provider_no_leakage_guard.py:198-268 | The guard passes if and only if no key and no text at any depth violates a rule. |
| Unique.DedupeValues | syvert/adapter_provider_compatibility_decision.py:1269-1276 | The loop with a seen set keeps the first occurrence of each value. |
| Unique.DedupeFixesExactlyDistinct | syvert/adapter_provider_compatibility_decision.py:1269-1276 | A sequence is left alone if and only if nothing in it is repeated. |
| Unique.DuplicateValues | syvert/adapter_provider_compatibility_decision.py:1218-1225 | The loop returns exactly the values that occur more than once. |
| Compatibility.MatchProfiles | syvert/adapter_provider_compatibility_decision.py:790-816 | The nested loops compute the specified list of matches. |
| Compatibility.NormalizedIsApprovedSet | syvert/adapter_provider_compatibility_decision.py:1194-1196 | Normalised capabilities are equal if and only if the sets of approved capabilities are, whatever order, repetition or unapproved ones. |
| Compatibility.MatchesAreExact | syvert/adapter_provider_compatibility_decision.py:790-816 | The matches are exactly the pairs of profiles with equal mode and equal set of approved capabilities. |
| Compatibility.MatchesAreCounted | syvert/adapter_provider_compatibility_decision.py:790-816 | There are as many matches as such pairs: none is lost or reported twice. |
| Compatibility.ClassificationPartitions | syvert/adapter_provider_compatibility_decision.py:1016-1047 | Within one carrier every reference is reported once, as resolved or as unresolved, never as both. |
| Compatibility.ResolvedExactly | syvert/adapter_provider_compatibility_decision.py:1016-1069 | A reference is resolved if and only if it occurs once in each of the three places, is approved, and its one record equals the approved proof. |
| OperabilityEvidence.LocalCaseRewritten | syvert/operability_gate.py:1570-1602 | Writing another actual result into the case that a reference names in an artifact changes what references to that case name, and nothing else that any reference names, whether the artifact lists its cases or maps them. |
| OperabilityEvidence.PlainTextIsUnbound | syvert/operability_gate.py:1629-1640 | A text without a colon names no revision. |
| Operability.OperabilityGate.NormalizeCases | syvert/operability_gate.py:710-917 | The loop over the candidates with its seen set appends the specified cases and failures. |
| Operability.OperabilityGate.Orchestrate | syvert/operability_gate.py:352-485 | The run passes if and only if nothing is reported; for every input passed and failed cases add up to the total, and the cases marked fail are exactly those in the failed set. |
| Operability.ScanIsSilentExactly | syvert/operability_gate.py:710-917 | The scan reports nothing if and only if every candidate is a sound case with an identifier of its own: among other things its artifact holds its actual result, its evidence is about it, and its actual result shows its effects and names no other revision. |
| Operability.PassExactly | syvert/operability_gate.py:352-485 | A run passes if and only if nothing is reported globally, all candidates are sound, the dimensions are covered, no mandatory case is marked fail, and every mandatory case has exactly one candidate, which passes. |
| Operability.CountsAgree | syvert/operability_gate.py:458-466 | Passed and failed counts add up for every set of failed identifiers, known or not. |
| Operability.FrozenAssertionsHold | syvert/operability_gate.py:978-993 | In a passing case every frozen assertion stands among the expected ones, up to how its value prints, and is satisfied against the actual result and the snapshots as written there; it is satisfied itself if its value was written in the same kind. |
| Operability.SpellingMatters | syvert/operability_gate.py:1680-1693 | When the expected assertion that stands for a frozen one is satisfied, the frozen one is if and only if both values are of one kind, or it demands a difference that the actual value shows anyway, or a text among them is a path to what the other demands. |
| Operability.TextPassesForTruth | syvert/operability_gate.py:814-847 | A smallest run, of one mandatory case with its artifact, for any revision and path without colons, with the text True for the truth value, expected, actual and stored, passes without any failure although the frozen assertion does not hold. |
| OperabilityRespelling.ReplacedRunPasses | syvert/operability_gate.py:352-485 | When a candidate of a passing run is replaced by one with the same identifier, verdict, impact and dimension, also under other artifacts where the other candidates are sound, the run goes on passing if and only if the new one is sound. |
| OperabilityRespelling.RespelledRunPasses | syvert/operability_gate.py:90-107 | Every passing run, under the policy of one attempt, that has the frozen case about a retryable platform error can be respelled with the text True, in the run and in the artifact the case refers to, and passes as before, although the case's frozen truth value does not hold any more. |
| OperabilityRespelling.RespellingAloneIsNoticed | syvert/operability_gate.py:839-847 | Respelled in the run alone, with the artifact as it is, a passing run is reported if and only if the respelled actual result is another value than before; so it is whenever the frozen truth value held. |
| Fences.StripFencedCodeBlocks | scripts/item_context.py:146-174 | The line loop over fence flag, mark and width computes the specified stripping. |
| Fences.StripKeepsPlainLines | scripts/item_context.py:146-174 | Stripping a document of plain lines and fenced blocks, the last perhaps never closed, leaves exactly the plain lines. |
| Fences.EveryTextIsADocument | scripts/item_context.py:146-174 | Every text is such a document, so the previous result speaks about all texts. |
| Fences.StripFixesExactlyUnfenced | scripts/item_context.py:146-174 | A text is left alone if and only if no line in it could open a fence; stripping is idempotent. |
| Metadata.ParseExecPlanMetadata | scripts/item_context.py:114-143 | The loop over the remaining lines with its section flag and seen keys computes the specified collection of entries. |
| Metadata.FirstValueWins | scripts/item_context.py:114-143 | A key has a value if and only if it has an entry in a metadata section, and it is the first one's. |
| Metadata.ConflictIsExact | scripts/item_context.py:114-143 | A conflict is reported if and only if some key is repeated, and the reported key is repeated. |
| Metadata.FencesDoNotCount | scripts/item_context.py:114-143 | Fenced blocks, headings inside them included, never contribute metadata: the plan is that of the plain lines, and each value stands in one of them. |

## Left out

Batch execution:

- The validation of success payloads, the normalisation of results, comment cursors and media policies are opaque predicates of the host; error messages are dropped, error codes are kept.
- The clock is one opaque reading, so all time stamps of a run are equal.
- The list of private payload keys is opaque; it is assumed to spare the twelve keys that Core writes itself.
- Executor failures always carry an error mapping; the executor is a deterministic function of the calls made so far.
- BatchFold.WriteSettles: error messages are not part of published outcomes; the code publishes the messages of a refused write as texts, and where one holds slashes (such as "public batch/dataset carrier contains a private field" and "normalized_payload contains a private raw/source/storage field") it is not acceptable there, and the outcome becomes unsafe_item_outcome where the model publishes dataset_write_failed.
- Sinks other than the reference sink, and the copying of records in and out of it (values are immutable here).
- `audit_replay` of the sink, and the dictionary forms of the carriers.

Texts everywhere:

- Case folding, white space, letters and digits are those of ASCII, and lines are given split; printed values and keys are asked to hold none of the characters that end a line.

Integration section and merge guard:

- IntegrationEdit.FlagLineParts: an entry broken over several lines is not recognised here, while the pattern in the code lets white space span lines; blank lines that the pattern absorbs behind the value are not removed here (they do not matter to the parser).
- IntegrationSection.PayloadOfOneSection: a row of bare hashes that takes the next line as its heading text is not modelled.
- The forms of a reference (number, slug, URL, project item URL) are opaque recognisers; looking a reference up and its live state are answers of the outside.
- Semantic comparison of references through live state, the review packet, the issue form and its parsing.
- GuardianMerge.PullRequest.RestoreRecheck: with reads or writes that fail the recheck may stay recorded; the code reports that and so does the outcome.
- GuardianMerge.PullRequest.PassIntegration: looking up the issue and the live state answers or is unreadable; an exception out of these calls is not modelled.
- GuardianMerge.PullRequest.MergeIfSafe: the draft flag is checked on the read behind the first verdict only, as in the code.
- The local state file as such, authentication, worktrees, subprocesses, the text of prompts and reviews.
- The replacement of template fields when a pull request is opened; its result has the form of the printed section.

Alias analysis:

- AliasStatements.ExecutionsAreRuns: assignment expressions inside other expressions are read through but do not bind; augmented assignments, imports, captures of match, with and except, parameters and global declarations, for which the code records nothing, and class bodies, whose assignments it records for the enclosing scope, are not modelled.
- AliasValues.CanBindExactly: a display that does not fit its targets raises in the code; here every name takes something out of the whole value then.
- The container tests that demand definite knowledge, and the scan that uses the aliases to report findings.

Smaller cores:

- GraphSearch.ReferencesTransport: objects created while attributes are read, whose identity may be reused, are not modelled.
- FrontMatter.RoundTrip: the validation of the contract's keys and headings.
- LeakageGuard.GuardCore: the exact escaping of keys that are no texts in paths; bytes are not scanned, as in the code.
- The compatibility decision around matching and evidence, with its contexts and error reports; two carriers may report one reference differently.
- Operability.PassExactly: the checks of a case that read neither its actual result nor its expected fields nor an artifact (dimension, capability, entry points, preconditions, the form of its lists, upstream references, frozen side effects and mutations) are one opaque list of codes, and the checks of release, baseline, dependencies, snapshots and evidence another; the matrix is any matrix, and artifacts are those approved files that can be read.
- Operability.FrozenAssertionsHold: numbers are integers; mappings have no order, and how lists and mappings print is a parameter that tells those of one kind apart; the list of failures is not deduplicated.
- Metadata.ParseExecPlanMetadata: the pattern of an entry and the cleaning of its value are one opaque reader; the plan's path and the form of its issue number are left out.
- Documentation and governance presence checks, the HTTP and command-line interfaces, adapters, and the runtime behind the executor.
