# Verified model of the inactive device client and its server

The repository runs signed, effect-free work on a user's device. A server hands out leases for queued
tasks, a client keeps a durable checkpoint for each task, executes it, and synchronises one redacted
result; around that protocol stand content digests, backup retention, stores whose writes must survive
crashes, framing, and a polling worker. This project models those parts and proves what each promises
over all inputs, all runs and all crash points.

How it is laid out, file by file:

- **The device task protocol.** `RunTypes`, `RunJournalSpec`, `RunJournalProofs`, `RunJournal` (the
  per-task state machine and its restore), `RunStoreSpec`, `RunStore` (the checkpoint table),
  `ClientCycle`, `ClientCycleProofs`, `ClientRuns`, `ClientOrigins` (where what is stored comes from),
  `ClientRuntime` (the two client cycles), `CoordinatorSpec`, `CoordinatorProofs`, `CoordinatorResults`,
  `Coordinator` (the server), `DeviceProtocol` (both together).
  The cycles are a transition system whose steps are what happens between two awaits; any await may end
  the cycle, which drops the in-memory journal and keeps the table. The methods of `ClientRuntime` are the
  cycles as written; each returns a ghost trace that shows its execution to be a run of that system whose
  every event is the one the outside answers give, and `RunsJoin` puts the traces of successive cycles
  together. On the server an `openSession` call is two
  steps, so overlapping calls interleave in any way.
- **Canonical JSON and the graph check.** `JsonText`, `CanonicalText`, `JsonReader` (a reader of any JSON text,
  against which the canonical text is proved), `KeyOrderProofs`, `CanonicalTextProofs`, `AcyclicCheck`.
- **Backup retention.** `IsoWeek`, `RetentionSpec`, `RetentionProofs` (a one-pass form and the theorem
  about pruning often), `RetentionMeaning` (the kept backups said without loops), `RecoveryTargetSpec`,
  `RecoveryTargetProofs`, `RecoveryTarget` (the directory).
- **Crash-ordered stores.** `ArtifactSpec`, `ArtifactProofs`, `ArtifactResults`, `ArtifactStore`;
  `ActivationSpec`, `Activation`; `EnrollmentSpec`, `Enrollment`; `IntakeSpec`, `IntakeProofs`, `Intake`.
  An artifact operation is a list of durable steps of which a crash leaves a prefix; activation and
  enrollment keep a ghost trace of every durable state.
- **Framing and scheduling.** `FrameSpec`, `FrameProofs`, `FrameDecoder`; `WorkerSpec`, `WorkerProofs`,
  `Worker`.

Files named `...Spec` define what an operation does to a value; the classes update their fields in place
and are proved equal to that, and the properties are proved of it.

What the code does not do, stated exactly:

- `isoWeekKey` passes years through `Date.UTC`, which reads 0 to 99 as 1900 to 1999. Keys name weeks for
  exactly the dates from the year 100 on (`KeysAreWeeksFromYear100`), 1 January of the year 50 gets the key
  of 1 January 1950 (`YearFiftyIsReadAsNineteenFifty`), and the week number is between 1 and 53 for every
  date except the first three days of the year 100 (`WeekNumberRange`).
- A checkpoint save is refused in one case only: when the revision is no longer an exact integer
  (`RunSavesAreAccepted`).
- A lease whose expiry is not a date never expires for the client (`RunJournalProofs.AcceptLeaseMeans`).
- The database takes capability names of up to 128 characters, the artifact store of up to 129; an install
  of a name in between lands its files and is then refused (`RowIdLimit`, `InstallWorks`,
  `LongNamesLandAndAreRefused`; a name of 129 characters in `LongestNameIsRefused`).
- A stopped worker stays stopped, and a running one has exactly one timer or pass, if and only if no start
  takes effect while a stop is under way (`HealthyIffStartsApart`). Two overlapping stops with a start between
  their ends let a failing pass bring the stopped worker back (`StartBetweenStopsRevivesWorker`).
- An activation that fails and is rolled back unhindered leaves its receipt behind if and only if the receipt
  was renamed into place and the intent could not be unlinked then (`Activation.InstalledService.Activate`);
  the service is removed, and activating again says that it is active while recovering and reconciling say
  that it does not run (`StrandedReceipt`). A reconciliation that answers "removed" can leave a receipt in the
  same way (`Activation.InstalledService.Reconcile`).
- After an activation the layout holds if and only if there was no unfinished deactivation; over one it leaves
  two activation files, which every later call refuses (`Activation.InstalledService.Activate`,
  `ActivatedOverDeactivation`). A crash between the rename of a receipt and the unlink of its intent leaves
  two as well, and `reconcile` then refuses (`Activation.InstalledService.Reconcile`).

Assumptions: digests are injective and stand for what they digest; a signed plan valid at some time is
valid at the time it was issued; executor choice, plan verification, server replies and executor answers
are arbitrary; one process owns the client's files and operations of one store do not overlap.

## Model

| member | source | states |
|---|---|---|
| RunTypes.ValidPlanWasValidWhenIssued | src/client-runtime/inactive-run-journal.ts:105-106 | a plan valid at any time is valid at its issue time, which is why finished results are checked at that time |
| RunTypes.HomePathIsUnsafe | src/client-runtime/inactive-run-journal.ts:24 | a home directory at the start of a text or behind a slash makes it unsafe, in capitals or not |
| RunTypes.SecretIsUnsafe | src/client-runtime/inactive-run-journal.ts:24 | so does the name of a secret with an assignment sign behind it |
| RunTypes.PlainTextIsSafe | src/client-runtime/inactive-run-journal.ts:24 | a text without slashes, colons and equals signs is safe |
| RunJournal.LocalRunJournal.AcceptLease | src/client-runtime/inactive-run-journal.ts:32-51 | every rejection in order; a known task returns its run if plan, device and executor agree; otherwise a leased run at revision 1 |
| RunJournal.LocalRunJournal.Begin | src/client-runtime/inactive-run-journal.ts:53-57 | accepted or paused becomes running, one revision on |
| RunJournal.LocalRunJournal.MarkLeaseAcknowledged | src/client-runtime/inactive-run-journal.ts:59-63 | leased becomes accepted |
| RunJournal.LocalRunJournal.Pause | src/client-runtime/inactive-run-journal.ts:65-69 | running becomes paused |
| RunJournal.LocalRunJournal.CompletePendingSync | src/client-runtime/inactive-run-journal.ts:71-77 | running with a privacy-bounded answer becomes completed with its result; that every result is what an executor returned is `ClientOrigins.ResultsComeFromExecutors` |
| RunJournal.LocalRunJournal.MarkSynced | src/client-runtime/inactive-run-journal.ts:79-83 | a completed run with its result becomes synced |
| RunJournal.LocalRunJournal.ReplaceRun | src/client-runtime/inactive-run-journal.ts:123-127 | the patched run, sealed again at the next revision, takes the place of the old one |
| RunJournal.LocalRunJournal.RestoreAll | src/client-runtime/inactive-run-journal.ts:95-115 | the restore loop gives the specified journal or the first error, and a sound journal |
| RunJournalProofs.CallKeepsInvariant | src/client-runtime/inactive-run-journal.ts:32-127 | every call keeps each run sealed, bound to its plan and consistent with its state, and never loses or changes a result; a refused call changes nothing |
| RunJournalProofs.AcceptLeaseMeans | src/client-runtime/inactive-run-journal.ts:32-51 | a lease is accepted if and only if it is well formed, not expired, for its own plan and device, effect-free, validly planned, with a named executor, and a known task is bound to the same plan, device and executor; the run it starts |
| RunJournalProofs.CallMovesAlongEdges | src/client-runtime/inactive-run-journal.ts:32-83 | a call moves at most its own task, along one edge of the state machine, one revision and to this time |
| RunJournalProofs.CallsKeepInvariant | src/client-runtime/inactive-run-journal.ts:32-127 | the same over any sequence of calls |
| RunJournalProofs.RestoreSpec | src/client-runtime/inactive-run-journal.ts:95-115 | restore succeeds exactly for distinct tasks whose checkpoints are sound and resumable, and what it then holds |
| RunJournalProofs.RestoreOfExport | src/client-runtime/inactive-run-journal.ts:91-115 | exporting and restoring gives the journal back except that running runs are paused one revision later |
| RunJournalProofs.ReachableJournalsRestore | src/client-runtime/inactive-run-journal.ts:53-128 | every reachable journal restores exactly while its unfinished plans are valid, finished runs however late |
| RunStore.RunCheckpointStore.SaveRunCheckpoint | src/client-runtime/sqlite-client-state.ts:301-312 | device, integrity and revision checks and the new table |
| RunStore.RunCheckpointStore.RestoreRunJournal | src/client-runtime/sqlite-client-state.ts:314-318 | the journal restored from all rows |
| RunStoreSpec.SaveOfContinuation | src/client-runtime/sqlite-client-state.ts:301-312 | a checkpoint that continues its row is saved exactly when it is resumable, and nothing durable is lost |
| RunStoreSpec.SaveMeans | src/client-runtime/sqlite-client-state.ts:301-312 | any checkpoint is saved if and only if it is of this device, sealed, resumable, and newer than its row or the row itself |
| RunStoreSpec.RestoreOfTable | src/client-runtime/sqlite-client-state.ts:314-318 | one run a row, interrupted ones paused, exactly when every row is resumable |
| ClientCycleProofs.StepKeepsInvariant | src/client-runtime/inactive-client-cycle.ts:37-141 | every step of either cycle, crashes included, keeps table, journal and history in agreement and loses nothing durable |
| ClientCycleProofs.EverySaveIsAccepted | src/client-runtime/inactive-client-cycle.ts:57-61 | a pending save is accepted if and only if its revision is an exact integer, and continues its row |
| ClientCycleProofs.ExecutorAnswerInv | src/client-runtime/inactive-client-cycle.ts:123-131 | whatever the executor answers leads to a save; the pause in the catch block finds the run running |
| ClientRuns.RunsJoin | src/client-runtime/inactive-client-cycle.ts:37-141 | the runs of successive cycles join into one run |
| ClientRuns.RunInvariant | src/client-runtime/inactive-client-cycle.ts:37-141 | in every state of every run the invariant holds, and stored tasks only move forward |
| ClientRuns.ResultsAreFinal | src/client-runtime/inactive-client-cycle.ts:108-141 | once a result is durable it never changes and its executor is never invoked again |
| ClientRuns.SubmissionsAndInvocations | src/client-runtime/inactive-client-cycle.ts:123-139 | all submissions of a task carry its durable result, all invocations used its one executor and plan, and there are at most one more than aborted cycles |
| ClientRuns.FirstInIsFirst | src/client-runtime/inactive-client-cycle.ts:88 | the run resumed is the first unfinished one in journal order |
| ClientRuns.PollsWhenNothingIsUnfinished | src/client-runtime/inactive-client-cycle.ts:86-93 | in every run an execution cycle polls only when every stored run is leased or done |
| ClientRuns.EmptyPollMeansAllDone | src/client-runtime/inactive-client-cycle.ts:93-96 | an execution cycle that polls nothing ends well if and only if every stored run is done |
| ClientRuns.RunSavesAreAccepted | src/client-runtime/sqlite-client-state.ts:301-312 | after any crash history every save continues its row and is accepted while revisions are exact integers |
| ClientRuns.RunPausesAreAccepted | src/client-runtime/inactive-client-cycle.ts:123-132 | in every run an answer within the privacy bound completes the run, and any other answer or a failure pauses it; either checkpoint is about to be saved |
| ClientOrigins.HeldIsAccountedFor | src/client-runtime/inactive-client-cycle.ts:37-141 | in every state of every run whatever the client holds goes back to a lease it polled, and its state and result to the answers they need |
| ClientOrigins.RunsComeFromLeases | src/client-runtime/inactive-client-cycle.ts:99-104 | every stored run goes back to a poll that gave its task, plan and device with the executor then chosen |
| ClientOrigins.ResultsComeFromExecutors | src/client-runtime/inactive-run-journal.ts:71-77 | every stored result has the outcome, summary and artifact digests an executor returned while this task was executing, and the row's device and plan |
| ClientOrigins.SubmissionsComeFromExecutors | src/client-runtime/inactive-client-cycle.ts:134-136 | and so has everything submitted |
| ClientOrigins.StatesComeFromAnswers | src/client-runtime/inactive-client-cycle.ts:101-140 | a run past its lease was acknowledged for its plan and device; a synced one had its result submitted and taken for its task, plan and device |
| ClientOrigins.InvokedWasGiven | src/client-runtime/inactive-client-cycle.ts:119-124 | an executor is invoked only if this cycle was given it, for the run it was chosen for |
| ClientRuntime.Runtime.RunInactiveCycle | src/client-runtime/inactive-client-cycle.ts:37-63 | the accepting cycle is a run from idle to idle in which every event is the one the outside answers give; it invokes and submits nothing, gives a receipt exactly when it is not cut short, and the receipt says how it ended: its state, session and, for a lease, the task, plan, executor and digest of the checkpoint saved last |
| ClientRuntime.Runtime.RunExecutionCycle | src/client-runtime/inactive-client-cycle.ts:70-106 | the same for the execution cycle: with the answers and the order of rows its run, its end and its receipt are determined; the receipt says that the executor was invoked exactly when this cycle invoked it |
| ClientRuntime.Runtime.PollAndExecute | src/client-runtime/inactive-client-cycle.ts:92-105 | polling, taking a lease and executing it continue the run |
| ClientRuntime.Runtime.FoundNothing | src/client-runtime/inactive-client-cycle.ts:93-96 | an empty poll ends the cycle, with an error if a task is still leased |
| ClientRuntime.Runtime.RestoreAndTake | src/client-runtime/inactive-client-cycle.ts:55-62 | the inactive cycle restores the journal and takes the lease |
| ClientRuntime.Runtime.PollAndTake | src/client-runtime/inactive-client-cycle.ts:46-54 | the poll of the inactive cycle: nothing, a foreign or effectful lease, or one to take |
| ClientRuntime.Runtime.TakeLease | src/client-runtime/inactive-client-cycle.ts:99-104 | accepting, saving, acknowledging and saving again continue the run |
| ClientRuntime.Runtime.AcknowledgeLease | src/client-runtime/inactive-client-cycle.ts:101-104 | the acknowledgement is checked before the run is marked accepted and saved |
| ClientRuntime.Runtime.ResumeRun | src/client-runtime/inactive-client-cycle.ts:108-140 | resuming a task continues the run of its cycle |
| ClientRuntime.Runtime.ExecuteRun | src/client-runtime/inactive-client-cycle.ts:123-125 | the invocation is recorded with the executor and plan of the run |
| ClientRuntime.Runtime.ConcludeRun | src/client-runtime/inactive-client-cycle.ts:123-132 | the executor's answer is saved before anything else; a failure pauses the run and saves that |
| ClientRuntime.Runtime.SubmitResult | src/client-runtime/inactive-client-cycle.ts:134-136 | only a completed run with its result is submitted |
| ClientRuntime.Runtime.MarkSubmitted | src/client-runtime/inactive-client-cycle.ts:136-140 | the reply is checked before the run is marked synced and saved |
| ClientRuntime.Runtime.SaveSynced | src/client-runtime/inactive-client-cycle.ts:138-140 | the save of the synced checkpoint ends the cycle, and the receipt reports that checkpoint |
| ClientRuntime.ReceiptFlagMeansInvoked | src/client-runtime/inactive-client-cycle.ts:118-140 | in every run that reports a receipt its flag is set if and only if an invocation is among the events of that run |
| Coordinator.DeviceSyncCoordinator.RegisterDevice | src/client-runtime/inactive-sync.ts:20-26 | test devices only; a registration with another public key is refused |
| Coordinator.DeviceSyncCoordinator.IssueChallenge | src/client-runtime/inactive-sync.ts:28-43 | challenge and nonce tokens are drawn in order and never reused |
| Coordinator.DeviceSyncCoordinator.BeginOpenSession | src/client-runtime/inactive-sync.ts:45-52 | the refusals before the proof is awaited; in a sound coordinator it goes on exactly for a proof that answers a stored challenge of its device in time, and the device is registered |
| Coordinator.DeviceSyncCoordinator.FinishOpenSession | src/client-runtime/inactive-sync.ts:53-75 | the challenge goes, the old session is superseded even when the token is then refused, the new one takes its place |
| Coordinator.DeviceSyncCoordinator.Enqueue | src/client-runtime/inactive-sync.ts:77-91 | refusals in order; in a sound coordinator accepted if and only if the dispatch is in order and its key fits, and then the queue holds it, a new one last |
| Coordinator.DeviceSyncCoordinator.Poll | src/client-runtime/inactive-sync.ts:93-116 | the lease in force, or a new one for the first unacknowledged task; attempts grow even when the token is refused |
| Coordinator.DeviceSyncCoordinator.Acknowledge | src/client-runtime/inactive-sync.ts:118-125 | only the newest unexpired lease token acknowledges |
| Coordinator.DeviceSyncCoordinator.RequireActiveSession | src/client-runtime/inactive-sync.ts:131-140 | an expired session is marked so before the call throws |
| CoordinatorProofs.BeginOpenMeans | src/client-runtime/inactive-sync.ts:45-51 | the signature of a proof is checked if and only if the proof answers a stored challenge of its device in time; the challenge and the registered device it was issued for are the ones used, and the device is never unavailable |
| CoordinatorProofs.VerifiedProofOpensOneSession | src/client-runtime/inactive-sync.ts:52-74 | a verified proof, valid time to live and drawable token open a session whatever was served during the check; it is the one active session of its device, acts until it expires, and the challenge is gone |
| CoordinatorProofs.ChallengeIsUsedOnce | src/client-runtime/inactive-sync.ts:40-55 | through any requests an issued challenge is there if and only if no opening of it was verified, and it never comes back |
| CoordinatorProofs.IssuedChallengeIsAnswered | src/client-runtime/inactive-sync.ts:28-50 | an issued challenge can be answered with the nonce and times it was issued with, whatever was served since, if and only if it has not expired and no opening of it was verified |
| CoordinatorProofs.ServeKeepsInvariant | src/client-runtime/inactive-sync.ts:20-125 | every request keeps devices, challenges, sessions, queue, key bijection and token record sound and moves them only forward |
| CoordinatorProofs.HistoryKeepsInvariant | src/client-runtime/inactive-sync.ts:20-153 | over every history with overlapping openings: no public key drifts, no challenge changes or comes back, no session is revived, acknowledged tasks never change, issued tokens are distinct |
| CoordinatorProofs.EmptyServerInv | src/client-runtime/inactive-sync.ts:11-18 | a new coordinator satisfies the invariant |
| CoordinatorProofs.LostOwnerUnreachable | src/client-runtime/inactive-sync.ts:131-140 | the lost-owner error is never thrown |
| CoordinatorProofs.OneActiveSession | src/client-runtime/inactive-sync.ts:56-73 | at most one session of a device is active |
| CoordinatorProofs.KeyNamesOneTask | src/client-runtime/inactive-sync.ts:77-91 | tenant and idempotency key name one task; enqueuing its dispatch again changes nothing |
| CoordinatorProofs.OnlyCurrentLeaseAcknowledges | src/client-runtime/inactive-sync.ts:118-125 | a task becomes acknowledged only by its newest lease in force, from its own device, and only after all earlier tasks of the device |
| CoordinatorProofs.NewLeaseHasNewToken | src/client-runtime/inactive-sync.ts:93-116 | only a poll replaces a lease, only one not in force, only that of the first pending task, with a token never given out before |
| CoordinatorProofs.PollAnswersFromTheQueue | src/client-runtime/inactive-sync.ts:93-116 | a poll gives nothing exactly when nothing is pending, and otherwise the lease then in force of the first pending task |
| CoordinatorProofs.PolledLeaseIsAcknowledged | src/client-runtime/inactive-sync.ts:93-125 | the lease a poll gives can be acknowledged until it or the session expires, and the queue then moves past its task |
| CoordinatorResults.RegisterDeviceMeans | src/client-runtime/inactive-sync.ts:20-26 | a device is registered if and only if it is a registered test device whose key has not changed |
| CoordinatorResults.IssueChallengeMeans | src/client-runtime/inactive-sync.ts:28-43 | a challenge is issued if and only if the device is known, the time to live valid and both tokens new, distinct and well formed; with which nonce and times |
| CoordinatorResults.UnverifiedOpensNothing | src/client-runtime/inactive-sync.ts:52-53 | an opening whose proof was not verified changes nothing |
| CoordinatorResults.ActiveSessionMeans | src/client-runtime/inactive-sync.ts:131-140 | a session acts if and only if it is active and has not expired |
| CoordinatorResults.ExpiredSessionNeverActs | src/client-runtime/inactive-sync.ts:93-140 | a session found expired gets nothing and is refused in every later history, whatever time is claimed |
| CoordinatorResults.EnqueueMeans | src/client-runtime/inactive-sync.ts:77-91 | enqueuing succeeds if and only if the dispatch is in order and no task of the tenant has its id or its key alone; a new one is stored as it is at the end, unleased and unacknowledged, anything else changes nothing |
| CoordinatorResults.PollMeans | src/client-runtime/inactive-sync.ts:93-116 | when a poll succeeds, for every session that can act; a lease in force is given again, a new one is of the first pending task and its plan, one attempt more, for exactly the time asked for |
| CoordinatorResults.EnqueuedTaskIsLeased | src/client-runtime/inactive-sync.ts:77-116 | a dispatch enqueued for a device with nothing pending is what its session is leased by the next poll |
| CoordinatorResults.PolledLeaseIsAcceptable | src/client-runtime/inactive-run-journal.ts:32-40 | the client accepts the lease a poll gives, until it expires, if and only if plan, executor name, task id and attempts allow it |
| CoordinatorResults.AcknowledgeMeans | src/client-runtime/inactive-sync.ts:118-125 | an acknowledgement succeeds if and only if a session that can act names a task of its device with the token of its lease in force; exactly that task is marked |
| DeviceProtocol.WorldStepKeepsInvariant | src/client-runtime/inactive-client-cycle.ts:70-141 | each step of client or server keeps stored tasks, queue and leases in agreement |
| DeviceProtocol.WorldRunInvariant | src/client-runtime/inactive-client-cycle.ts:70-141 | the same in every state of every joint run |
| DeviceProtocol.AtMostOneLiveTask | src/client-runtime/inactive-client-cycle.ts:86-105 | at most one stored task is accepted, running, paused or pending sync |
| DeviceProtocol.ExecutionsFollowTheQueue | src/client-runtime/inactive-sync.ts:93-125 | tasks are executed in the server's enqueue order, each acknowledged by the server |
| DeviceProtocol.AcknowledgedBeforeExecution | src/client-runtime/inactive-client-cycle.ts:101-105 | at the moment of an invocation the server has acknowledged the task and it is the only live one |
| JsonText.QuotedReadable | src/capability-platform/validation.ts:119-129 | what follows a quoted string cannot be mistaken for part of it |
| JsonText.QuotedReadBack | src/capability-platform/validation.ts:119-129 | a quoted string is JSON for that string: a reader of any JSON string gives it back and stops behind it (section 7 of RFC 8259) |
| JsonText.PrintedShortest | src/capability-platform/validation.ts:119-129 | no text that reads as the string is shorter, and none as long without capital hexadecimal digits is another one: so it is spelled with these escapes and no others |
| JsonText.DecimalReadable | src/capability-platform/validation.ts:120-123 | a printed integer determines its value and where it ends |
| JsonText.DecimalReadBack | src/capability-platform/validation.ts:120-123 | a printed integer is JSON for that integer (section 6 of RFC 8259) |
| JsonText.OnlySpelling | src/capability-platform/validation.ts:120-123 | it is the only text of the integer, but for a sign before zero |
| KeyOrderProofs.SortSorts | src/capability-platform/validation.ts:127 | keys come out in code-unit order (section 3.2.3 of RFC 8785) |
| KeyOrderProofs.BeforeMeans | src/capability-platform/validation.ts:127 | the order of keys: a proper prefix first, else the smaller code unit where they first differ |
| KeyOrderProofs.SortForgetsOrder | src/capability-platform/validation.ts:127 | the sorted fields do not depend on insertion order |
| CanonicalTextProofs.TextExistsIffJson | src/capability-platform/validation.ts:118-132 | exactly the values made of JSON values have a text; all others throw |
| CanonicalTextProofs.TextReadsBack | src/capability-platform/validation.ts:118-132 | every canonical text reads as one value wherever it stands, and as the value it was made from |
| CanonicalTextProofs.ParsedBack | src/capability-platform/validation.ts:118-132 | parsing the canonical text of a value, with a reader of any JSON text, gives exactly the value meant |
| CanonicalTextProofs.NamesInOrder | src/capability-platform/validation.ts:127-129 | in the text of an object each name comes once, in code-unit order |
| CanonicalTextProofs.SameTextSameMeaning | src/capability-platform/validation.ts:118-132 | equal texts come only from the same JSON value |
| CanonicalTextProofs.SameMeaningSameText | src/capability-platform/validation.ts:118-132 | the same JSON value has one text, or one error, whatever its key order |
| CanonicalTextProofs.SameTextIffSameValue | src/capability-platform/validation.ts:118-132 | canonical texts are equal exactly for the same JSON value up to key order |
| CanonicalTextProofs.SameDigestIffSameValue | src/capability-platform/validation.ts:134-136 | a digest exists exactly of JSON values, and under a hash without collisions two digests are equal exactly for the same JSON value up to key order |
| CanonicalTextProofs.NoTextIsPrefixOfAnother | src/capability-platform/validation.ts:118-132 | inside a larger text a canonical text can be read in only one way |
| AcyclicCheck.AssertAcyclic | src/capability-platform/validation.ts:81-93 | terminates on every graph and accepts exactly those without a cycle; the finish order is a topological order |
| AcyclicCheck.Search.Visit | src/capability-platform/validation.ts:84-91 | a visit finishes its node after all its successors or has found a cycle |
| AcyclicCheck.OrderExcludesCycles | src/capability-platform/validation.ts:81-93 | a graph with such an order has no cycle |
| IsoWeek.IsoWeekKey | scripts/recovery-target.ts:118-125 | the key computed with the moved cursor is that of the specification |
| IsoWeek.SameWeekMeans | scripts/recovery-target.ts:120-121 | two days have the same Thursday exactly when one Monday-to-Sunday week holds both |
| IsoWeek.WeekKeyDecides | scripts/recovery-target.ts:118-125 | keys are equal exactly when the days `Date.UTC` gives fall in the same week |
| IsoWeek.KeysAreWeeksFromYear100 | scripts/recovery-target.ts:119 | keys decide weeks exactly for dates from the year 100 on |
| IsoWeek.YearFiftyIsReadAsNineteenFifty | scripts/recovery-target.ts:119 | a pair of dates 1900 years apart with one key |
| IsoWeek.WeekNumberRange | scripts/recovery-target.ts:122-124 | the week number is 1 to 53 exactly outside the first three days of the year 100 |
| IsoWeek.WeekOneHoldsFourthOfJanuary | scripts/recovery-target.ts:120-124 | week 1 is the one that holds 4 January and weeks belong to the year of their Thursday (ISO 8601), from the fourth day of the year 100 on |
| RetentionProofs.KeptInOnePass | scripts/recovery-target.ts:148-166 | the two loops keep what a single newest-to-oldest pass picks |
| RetentionProofs.KeptShape | scripts/recovery-target.ts:127-174 | a prune keeps the newest backup and at most daily + weekly in all, in order, and a second prune changes nothing |
| RetentionProofs.PruneBeforePublish | scripts/recovery-target.ts:127-174 | pruning before a newer backup is published makes no difference to pruning after it |
| RetentionProofs.PruneEachIsPruneOnce | scripts/recovery-target.ts:324-327 | pruning after each of any number of publishes keeps what pruning once at the end keeps |
| RetentionMeaning.DailyMeaning | scripts/recovery-target.ts:149-156 | the first loop keeps the newest backup of each of the daily newest days |
| RetentionMeaning.WeeklyMeaning | scripts/recovery-target.ts:157-166 | the second keeps the newest of each of the weekly newest weeks below those days |
| RetentionMeaning.KeptMeaning | scripts/recovery-target.ts:148-166 | a backup is kept if and only if it is one of those |
| RetentionMeaning.KeptOncePerDay | scripts/recovery-target.ts:148-166 | of the backups of one day at most one is kept |
| RecoveryTarget.Directory.VerifyRecoveryPair | scripts/recovery-target.ts:86-105 | a receipt verifies with its own object at its own path, of the size and digest the receipt gives |
| RecoveryTargetProofs.VerifiedMeans | scripts/recovery-target.ts:86-105 | a pair verifies if and only if its receipt is of this project, for this path and dated, and its object has the size and digest of the receipt |
| RecoveryTargetProofs.DamagedPairIsLeftAlone | scripts/recovery-target.ts:138-173 | a pair whose object is missing or of another size or digest is ignored by name, neither kept nor deleted, and left where it is; the others are planned as if it were not there |
| RecoveryTargetProofs.PlannedPairsAreSound | scripts/recovery-target.ts:167-173 | every key kept or deleted names an object with the size and digest of its receipt |
| RecoveryTarget.Directory.KeepDaily | scripts/recovery-target.ts:148-156 | the first loop with its set and its dates |
| RecoveryTarget.Directory.KeepSet | scripts/recovery-target.ts:148-166 | both loops give the daily and weekly keys |
| RecoveryTarget.Directory.PlanRecoveryRetention | scripts/recovery-target.ts:127-174 | refused exactly for invalid retention values; otherwise the number of verified receipts, the plan over the sorted verified backups, and the sorted names of the ignored receipts |
| RecoveryTargetProofs.CountVerified | scripts/recovery-target.ts:136-146 | a walk finds each verified receipt once, whatever its order |
| RecoveryTargetProofs.IgnoredMeans | scripts/recovery-target.ts:143-145 | the ignored list is strictly sorted and names exactly the receipts that do not verify |
| RecoveryTarget.Directory.ReadReceipts | scripts/recovery-target.ts:138-146 | the loop over the walk splits receipts into verified pairs and ignored ones |
| RecoveryTarget.Directory.ApplyRecoveryRetention | scripts/recovery-target.ts:176-189 | pairs are verified again and deleted one by one up to the first that has changed |
| RecoveryTargetProofs.ApplyStopsAtChange | scripts/recovery-target.ts:176-189 | a plan applied to any directory, however old the plan, removes the pairs of its first keys, each verified just before, and stops at the first that no longer verifies |
| RecoveryTarget.Directory.Prune | scripts/recovery-target.ts:305-312 | planning and applying succeeds and leaves exactly the kept backups verified |
| RecoveryTargetProofs.SortDescOrder | scripts/recovery-target.ts:147 | the sort is a newest-first permutation |
| RecoveryTargetProofs.SortIsStable | scripts/recovery-target.ts:147 | backups of one instant keep the order of the walk |
| RecoveryTargetProofs.SortOfWhere | scripts/recovery-target.ts:147 | sorting commutes with deleting, so equal instants keep their order |
| RecoveryTargetProofs.PlanPartitions | scripts/recovery-target.ts:167-173 | every verified backup is either kept or deleted |
| RecoveryTargetProofs.PruneReduces | scripts/recovery-target.ts:176-189 | right after planning all deletions succeed and remove nothing else |
| RecoveryTargetProofs.SortedAfterPublish | scripts/recovery-target.ts:147 | a strictly newer verified pair comes first wherever the walk meets it |
| RecoveryTargetProofs.WalkDoesNotMatter | scripts/recovery-target.ts:107-116 | while no two backups have the same instant every order of the walk gives the same sorted list |
| RecoveryTargetProofs.LaterCycle | scripts/recovery-target.ts:324-327 | after a first prune no two backups share an instant, so a further cycle may walk as it likes |
| RecoveryTargetProofs.CyclesArePruneOnce | scripts/recovery-target.ts:324-327 | running `cycle` for each of a series of newer backups, every time with a walk in any order, leaves the directory, file by file, as publishing all and pruning once, with a walk that meets the old backups as the first cycle did |
| FrameDecoder.EncodeDeviceProtocolFrame | src/client-runtime/device-codec.ts:23-30 | the filled buffer is the big-endian length and the body; too large a body is refused |
| FrameDecoder.DeviceProtocolFrameDecoder.Push | src/client-runtime/device-codec.ts:35-51 | what a push returns or throws and what stays buffered |
| FrameProofs.HeadersInOrder | src/client-runtime/device-codec.ts:23-30 | the length is written highest byte first: a smaller length has the header that is smaller byte by byte |
| FrameProofs.WrittenRead | src/client-runtime/device-codec.ts:39-42 | any four bytes are read as the length whose header they are |
| FrameProofs.DrainAppend | src/client-runtime/device-codec.ts:39-48 | reading can stop anywhere and be carried on when more has arrived |
| FrameProofs.PushNeverTooLong | src/client-runtime/device-codec.ts:49 | the guard behind the loop never fires, for any buffer and chunk |
| FrameProofs.ChunksDoNotMatter | src/client-runtime/device-codec.ts:35-51 | any way of cutting any stream gives the same messages, leftover and error |
| FrameProofs.RoundTrip | src/client-runtime/device-codec.ts:23-54 | encoded messages and part of a further frame, cut in any way, give exactly those messages and that part |
| FrameProofs.FramesReadable | src/client-runtime/device-codec.ts:23-30 | two lists of messages have the same bytes only if they are the same |
| ArtifactStore.InactiveArtifactStore.Install | src/client-runtime/inactive-artifact-store.ts:77-94 | the durable steps in order, as far as they get; on success blob, receipt, row and selection |
| ArtifactStore.InactiveArtifactStore.Upgrade | src/client-runtime/inactive-artifact-store.ts:96-101 | an install followed by a selection that remembers the version before |
| ArtifactStore.InactiveArtifactStore.Rollback | src/client-runtime/inactive-artifact-store.ts:103-108 | the steps and result of a rollback, as far as they get; on success it returns the selection now stored |
| ArtifactStore.InactiveArtifactStore.Uninstall | src/client-runtime/inactive-artifact-store.ts:110-119 | the row and selection in one step, then the files that may fail to go; on success it reports the version now selected and what files are left |
| ArtifactStore.InactiveArtifactStore.VerifyRecovery | src/client-runtime/inactive-artifact-store.ts:121-134 | succeeds exactly when every row, its files and selections verify, and counts the orphans |
| ArtifactStore.InactiveArtifactStore.GarbageCollect | src/client-runtime/inactive-artifact-store.ts:136-145 | the removals in listing order; afterwards no orphan is left, and the counts returned are those of the orphans before |
| ArtifactStore.InactiveArtifactStore.LandBlob | src/client-runtime/inactive-artifact-store.ts:183-196 | a blob already there is kept, or refused if its content differs |
| ArtifactStore.InactiveArtifactStore.PersistReceipt | src/client-runtime/inactive-artifact-store.ts:211-233 | an existing receipt is returned if it differs in its time only, refused otherwise |
| ArtifactStore.InactiveArtifactStore.SaveInactiveCapability | src/client-runtime/sqlite-client-state.ts:223-231 | rows are immutable and belong to this device |
| ArtifactStore.InactiveArtifactStore.SelectInactiveCapability | src/client-runtime/sqlite-client-state.ts:263-272 | the selected version becomes current, the one before previous |
| ArtifactProofs.SafeAtEveryCrash | src/client-runtime/inactive-artifact-store.ts:77-145 | safe steps keep the invariant at every crash point |
| ArtifactProofs.SelectionReadable | src/client-runtime/sqlite-client-state.ts:253-261 | the drift check of a selection never fires |
| ArtifactProofs.InstalledVerifies | src/client-runtime/inactive-artifact-store.ts:147-156 | every installed version has its matching receipt and blob |
| ArtifactProofs.AlwaysRecoverable | src/client-runtime/inactive-artifact-store.ts:121-134 | recovery succeeds in every state the invariant allows |
| ArtifactResults.RowIdLimit | src/client-runtime/sqlite-client-state.ts:15 | the database takes the store's capability names up to 128 characters and no longer ones |
| ArtifactResults.InstallWorks | src/client-runtime/inactive-artifact-store.ts:77-94 | an install succeeds if and only if its plan, source, receipt, name length and device allow it; the exact state it leaves; safe to crash anywhere |
| ArtifactResults.LongNamesLandAndAreRefused | src/client-runtime/inactive-artifact-store.ts:77-94 | an install whose name is longer than 128 characters lands its blob and receipt and is then refused, without a row |
| ArtifactResults.LongestNameIsRefused | src/client-runtime/sqlite-client-state.ts:15 | a concrete plan the artifact store accepts, with a name of 129 characters: in an empty store it leaves a blob and a receipt that no row needs |
| ArtifactResults.RetryCompletes | src/client-runtime/inactive-artifact-store.ts:77-94 | an install that crashed anywhere completes when tried again, at whatever time |
| ArtifactResults.UpgradeWorks | src/client-runtime/inactive-artifact-store.ts:96-101 | when an upgrade succeeds and the exact state it leaves |
| ArtifactResults.RollbackWorks | src/client-runtime/inactive-artifact-store.ts:103-108 | a rollback succeeds exactly when there is a previous version, swaps the two, and returns the selection it leaves |
| ArtifactResults.RollbackTwiceRestores | src/client-runtime/sqlite-client-state.ts:274-281 | two rollbacks restore the selection but for its timestamp, and nothing else changes |
| ArtifactResults.RollbackUndoesUpgrade | src/client-runtime/inactive-artifact-store.ts:96-108 | rolling back an upgrade selects the version before it |
| ArtifactResults.UninstallWorks | src/client-runtime/inactive-artifact-store.ts:110-119 | an uninstall succeeds exactly for an installed version; a blob another version uses stays; the report says what is selected then, whether the blob went, and whether an unneeded file is left |
| ArtifactResults.UninstallSelects | src/client-runtime/sqlite-client-state.ts:283-299 | after an uninstall the previous version is selected if the current one went, a previous one that went is forgotten, and every other selection stays |
| ArtifactResults.UninstallUndoesInstall | src/client-runtime/inactive-artifact-store.ts:77-119 | uninstalling a version just installed restores rows and selections |
| ArtifactResults.CollectWorks | src/client-runtime/inactive-artifact-store.ts:136-145 | a collection leaves exactly the files installed versions need, and is safe to crash anywhere |
| ArtifactResults.CollectCounts | src/client-runtime/inactive-artifact-store.ts:121-145 | it removes as many files as recovery counts orphans, and then recovery counts none |
| ArtifactResults.ReportCounts | src/client-runtime/inactive-artifact-store.ts:121-134 | recovery counts every row, every selection, and the files no row needs |
| ArtifactResults.VerifiesIffIntact | src/client-runtime/inactive-artifact-store.ts:147-156 | in any store, damaged or not, a version verifies if and only if its row, receipt and blob are there, of this device, and agree |
| ArtifactResults.SelectionReadIff | src/client-runtime/sqlite-client-state.ts:253-261 | a selection is read if and only if the versions it names have readable rows; any other is drifted |
| ArtifactResults.RecoversIffIntact | src/client-runtime/inactive-artifact-store.ts:121-134 | recovery of any store succeeds if and only if every version is intact and its selection can be read |
| ArtifactResults.DamageIsSeen | src/client-runtime/inactive-artifact-store.ts:103-156 | if blob or receipt of a version is lost or replaced it no longer verifies, recovery fails, and neither a rollback to it nor an uninstall does anything |
| ArtifactResults.DamagedBlobIsRefused | src/client-runtime/inactive-artifact-store.ts:183-196 | an install over a blob file with other content is refused and changes nothing |
| ArtifactResults.SaveRowMeans | src/client-runtime/sqlite-client-state.ts:223-231 | a row is saved if and only if it is well formed, of this device, and new or the same; nothing else changes |
| ArtifactResults.EmptyStoreInv | src/client-runtime/inactive-artifact-store.ts:64-75 | a new store satisfies the invariant |
| ArtifactResults.HistoryKeepsInvariant | src/client-runtime/inactive-artifact-store.ts:77-145 | after any history of operations and crashes rows are backed, selections name installed distinct versions, recovery succeeds |
| ActivationSpec.StepKeepsInv | src/client-runtime/client-service-activation.ts:33-73 | each durable step keeps every installed or registered target named by a file |
| ActivationSpec.InvAtEveryCrash | src/client-runtime/client-service-activation.ts:33-73 | at every crash point of every history targets are named, the preparation is there, and each receipt, deactivation file and whole temporary file has a recorded look in which manager and health agreed on its pid for its own installation |
| ActivationSpec.OnlyAgreementsRecorded | src/client-runtime/client-service-activation.ts:83 | the record of looks only grows, and only by looks in which manager and health agree |
| ActivationSpec.ReceiptsNeverRewritten | src/client-runtime/client-service-activation.ts:68-73 | a receipt is only ever moved aside, never rewritten |
| Activation.InstalledService.ReplaceIntent | src/client-runtime/client-service-activation.ts:87 | temporary file, rename, then the intent goes; exactly what each fault leaves, a temporary file included |
| Activation.InstalledService.WaitForReady | src/client-runtime/client-service-activation.ts:83 | the pid of the first look in which manager and health agree, recorded; none exactly when no look does |
| Activation.InstalledService.Bring | src/client-runtime/client-service-activation.ts:41-44 | succeeds if and only if the manager does as asked, some look agrees and the receipt takes the place of the intent; otherwise exactly the files left beside the intent |
| Activation.InstalledService.CommitWhenReady | src/client-runtime/client-service-activation.ts:43-44 | the receipt takes the place of the intent if and only if some look agrees and no step of the replacement fails; otherwise exactly the files left |
| Activation.InstalledService.Activate | src/client-runtime/client-service-activation.ts:33-53 | succeeds if and only if nothing is in the way, the manager does as asked, some look agrees and no step of the replacement fails; then receipt, definition and registration; a failure with an unhindered rollback leaves the state before, with a receipt if and only if the intent could not be unlinked |
| Activation.InstalledService.Reconcile | src/client-runtime/client-service-activation.ts:60-66 | confirmed with a receipt if and only if the service runs as its receipt says or an interrupted activation is found running; taken down and removed if and only if an interrupted one is not confirmed and nothing hinders the removal; exactly the files left, a receipt that could not displace its intent included |
| Activation.InstalledService.Confirm | src/client-runtime/client-service-activation.ts:64 | an interrupted activation gets its receipt if and only if a look agrees and the replacement works; otherwise exactly the files left |
| Activation.InstalledService.Recover | src/client-runtime/client-service-activation.ts:55-57 | succeeds if and only if the receipt is of this installation and manager and health agree on the process it names |
| Activation.InstalledService.Deactivate | src/client-runtime/client-service-activation.ts:69-73 | succeeds if and only if the service is active or half deactivated, the rename works and nothing hinders the removal; afterwards nothing is installed or registered; a failed one can be carried on |
| Activation.InstalledService.RemoveUnregistered | src/client-runtime/client-installed-service.ts:103-110 | succeeds if and only if there is no activation file and both unlinks work, and then nothing is installed |
| Activation.ActivatedOverDeactivation | src/client-runtime/client-service-activation.ts:33-73 | activation, a deactivation that is stopped half way, activation: two activation files and a layout that every later call refuses |
| Activation.StrandedReceipt | src/client-runtime/client-service-activation.ts:41-49 | an activation whose intent resists the unlink once: the service is removed, the receipt is not, and neither activating nor reconciling gets past it |
| EnrollmentSpec.StepKeepsInv | src/client-runtime/sqlite-client-state.ts:158-188 | each durable step keeps row and secret in agreement and a verdict as it is |
| EnrollmentSpec.InvAtEveryCrash | src/client-runtime/client-device-enrollment.ts:10-46 | at every crash point a pending row has its secret and a final row has none |
| EnrollmentSpec.ApprovalStands | src/client-runtime/sqlite-client-state.ts:176-183 | an approval is never followed by anything else |
| EnrollmentSpec.ExpiryStands | src/client-runtime/sqlite-client-state.ts:176-188 | an expiry stands until its row is cleared |
| EnrollmentClient.DeviceEnrollment.Begin | src/client-runtime/client-device-enrollment.ts:10-24 | an unfinished or approved enrollment is returned, an expired one replaced; a failed save takes the secret back |
| EnrollmentClient.DeviceEnrollment.Poll | src/client-runtime/client-device-enrollment.ts:26-40 | the server is asked exactly when the row is pending; a row waiting for clean-up reaches its final stage without it |
| EnrollmentClient.DeviceEnrollment.CleanUp | src/client-runtime/client-device-enrollment.ts:42-46 | the secret goes first, then the row becomes final with the same verdict |
| IntakeTables.IntakeStore.UpsertIntakeMatter | src/client-runtime/sqlite-client-state.ts:81-130 | the whole transaction, its refusals and its result |
| IntakeTables.IntakeStore.IntakeMatter | src/client-runtime/sqlite-client-state.ts:132-151 | the row of an id, if there is one |
| IntakeProofs.EmptyIntake | src/client-runtime/sqlite-client-state.ts:81-130 | empty tables satisfy the invariant |
| IntakeProofs.AcceptedIsStored | src/client-runtime/sqlite-client-state.ts:108-127 | a new call stores exactly its content in the Matter of its source and touches no other; when it inserts and when it changes |
| IntakeProofs.UpsertSucceeds | src/client-runtime/sqlite-client-state.ts:81-127 | a call succeeds if and only if the input is this user's and well formed and its key is new and the Matter not closed, or stands for this content; a refused call changes nothing |
| IntakeProofs.HistoryKeepsInvariant | src/client-runtime/sqlite-client-state.ts:81-130 | after any history there is at most one Matter a source, every receipt points at an existing one, and neither is lost |
| IntakeProofs.ReplayChangesNothing | src/client-runtime/sqlite-client-state.ts:100-107 | replaying any earlier successful call succeeds and changes nothing, whatever has happened since |
| IntakeProofs.KeyStandsForOneContent | src/client-runtime/sqlite-client-state.ts:100-107 | an idempotency key with other content is refused for good |
| Worker.NoEffectClientWorker.Start | src/client-runtime/no-effect-client-worker.ts:91-95 | throws unless stopped, else one immediate pass |
| Worker.NoEffectClientWorker.LaunchPass | src/client-runtime/no-effect-client-worker.ts:106-115 | no pass while one is in flight |
| Worker.NoEffectClientWorker.EndPass | src/client-runtime/no-effect-client-worker.ts:117-132 | success clears a degraded state, failure sets it unless the worker is stopping |
| Worker.NoEffectClientWorker.FinishPass | src/client-runtime/no-effect-client-worker.ts:110-114 | the `finally` step frees the field and sets the next timer while the worker is active |
| Worker.NoEffectClientWorker.FireTimer | src/client-runtime/no-effect-client-worker.ts:113 | a timer frees its field and launches a pass |
| Worker.NoEffectClientWorker.Stop | src/client-runtime/no-effect-client-worker.ts:98-102 | the pending timer is cancelled and the pass in flight is waited for |
| Worker.NoEffectClientWorker.FinishStop | src/client-runtime/no-effect-client-worker.ts:102-103 | while no start has taken effect during a stop the worker is then stopped, without timer or pass |
| WorkerProofs.PassesNeverOverlap | src/client-runtime/no-effect-client-worker.ts:91-132 | two passes never run at once, for every sequence of events, overlapping stops included |
| WorkerProofs.DegradedMeansLastPassFailed | src/client-runtime/no-effect-client-worker.ts:117-132 | through every sequence of events an active worker is degraded if and only if the last pass to end since its start failed |
| WorkerProofs.NewWorkerAlone | src/client-runtime/no-effect-client-worker.ts:90 | a new worker has no timer, no pass and no stop under way |
| WorkerProofs.RunStaysAlone | src/client-runtime/no-effect-client-worker.ts:91-132 | when no start takes effect during a stop, a running worker has exactly one of a timer and a pass and a stopped one neither; stops may overlap |
| WorkerProofs.NothingAfterStop | src/client-runtime/no-effect-client-worker.ts:97-115 | from a finished stop until the next start nothing happens but that further stops end |
| WorkerProofs.HealthyIffStartsApart | src/client-runtime/no-effect-client-worker.ts:91-132 | every continuation without a further start leaves the worker healthy if and only if no start has taken effect while a stop was under way |
| WorkerProofs.StartDuringStop | src/client-runtime/no-effect-client-worker.ts:91-104 | after a start during a stop that stop can end at once and leaves a stopped worker with a pass in flight |
| WorkerProofs.StartBetweenStopsRevivesWorker | src/client-runtime/no-effect-client-worker.ts:91-131 | one run of a new worker: two overlapping stops with a start between their ends both finish, and a failing pass then brings the stopped worker back |

## Left out

- Cryptography, the keychain, process spawning, transports, SQL text, file modes and symlink checks: their answers are parameters.
- Field-by-field validators of envelopes, plans, messages and configurations: a field of the value stands for their verdict.
- Instants are integers, and an invalid `Date` argument is not modelled; a text that may fail to parse is `None`.
- Composite keys joined with NUL characters are tuples.
- Revisions, attempts and counters are unbounded integers; only the exact-integer check on revisions is modelled.
- Canonical numbers are integers within the exact range; fractions, exponents and sparse arrays are not modelled.
- Rows are restored in any order the query may give, not only by task id.
- Single use of a challenge among openings that overlap: they can use one challenge twice. Openings begun after a verified one cannot.
- Liveness: a poll whose first task has expired keeps throwing, and a task left leased after a lost acknowledgement stays so.
- Backup instants outside the years 0 to 9999, whose dates are written with a sign; week keys of dates before the year 0.
- A backup published while a prune is under way.
- FrameProofs.RoundTrip: assumes that the printed JSON of a valid message is not empty and reads back as that message.
- Leftover temporary files of the artifact store, which make its directory scans throw.
- Partly written files other than the temporary file of an activation receipt: each other file write, link, rename and removal is one step.
- Enrollment calls that overlap, and servers that give the same request to two of them.
- Poll intervals and discovery times of the worker, and its snapshot counters.
- The instance lease, the installation planner, the catalog and offer compilers, executor negotiation and the web console.
