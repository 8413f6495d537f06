# Backup orchestrator: a verified model

The backend of the backup orchestrator is a small concurrent protocol over one SQLite
database. HTTP handlers, a periodic worker, detached verification tasks, WebSocket
subscribers and a polling Telegram bot read a row, decide, and write it back, most of them
with an UPDATE guarded by what was read (a compare-and-swap). This project models that
protocol and proves what it keeps, over every interleaving of its steps.

Each part comes in two forms. A *specification* gives the committed writes as functions on
plain values (`Alerts`, `JobRuns`, `Verification`, `Poller`, `Restores`, ...), and machines
over them: an `Event` is one atomic step, `After(events)` is the state a history reaches,
and the theorems speak about every history. A *class* (`AlertTable.Table`,
`JobRunStore.Backend`, `VerificationStore.Store`, `PollTick.Bot`, ...) carries the code's own
loops, branches and field updates, and each of its methods is proved to do exactly what the
specification says. Beside both stand *effects*: what a caller sees change, column by column and
alert by alert, and what is answered, in literal statuses, alert types and limits. They are proved
of the specification functions and stated again by the methods.

## What is in which file

| file | models |
|---|---|
| Wrappers, Sets | nullable columns, PATCH fields, handler answers; cardinality of subsets |
| Alerts, AlertTable | the alerts table, its dedupe index, the raise/resolve helper, the admin endpoints |
| JobRuns | create, PATCH, complete, claim, cancel, TIMEOUT and STUCK, each split into its read and its guarded UPDATE |
| JobRunMachine, JobRunHistories, JobRunExamples | every interleaving of those steps; what holds in every state and along every history; histories that surprise |
| JobRunEffects | what each of those calls writes, column by column, and answers |
| JobRunStore | the same handlers and the two sweeps as methods on stored rows |
| CancelDelivery | the agent's poll for cancelled runs, and how it drains |
| ConnectionManager, JobRunSockets, JobRunBroadcasts, SocketHook | the WebSocket registry, the subscribe-versus-complete race, the browser hook |
| Verification, VerificationStore, VerificationAlerts | executor, best-effort marker, stuck sweep and copy-integrity reports; the severity of their alerts |
| Poller, PollTick | the bot's paging loop, high-water mark and fan-out |
| MissedRuns | missed-run detection |
| AgentOffline, Heartbeat | server status, offline sweep, disk samples and threshold alerts |
| BackupJobs, BackupJobMachine, BackupJobExamples | job creation and PATCH; the two alerts about a job's schedule, with their writers split at their awaits |
| Restores | restore operations and the deletion of SQL instances |
| RemotePaths | computed remote directories and the override check |
| BotRestore | the bot's restore confirmation |
| Migration0008 | upgrade and downgrade of the alerts table |

## Assumptions

- Row ids increase in commit order and alert rows are never deleted; an alert's index in the
  modelled table stands for its id.
- One transaction is one atomic step. Handlers that carry no guard of their own (heartbeat,
  job PATCH, job deletion, the admin alert endpoints) are one step each. The creation of a
  job run or a restore, the deletion of an SQL instance, the report of a schedule error and the
  worker's judgement of one job are two: the checks, and the write.
- Foreign keys are enforced: an alert about a job deleted meanwhile is refused, and the helper's
  savepoint absorbs that.
- Instants are integers counting microseconds. The cron library and the time zone database
  are one function returning the next fire, a cron error or a zone error; the only fact used
  about it is that the next fire lies strictly after its argument, and only where stated.
- The run that a WebSocket subscriber reads is fresh; sending fails only on a socket that is
  no longer open; the handler that ends a run is not killed before its close_all ends.
- A bot fetch sees a table that does not change between its pages
  (`Poller.ResolvingBetweenPagesSkipsOne` shows that this is needed, `Poller.TwoPagesMiss` what
  happens otherwise), and bot updates are handled one at a time.
- A PENDING verification run is given to one executor, by the handler or the worker that
  created it (app/routers/backup_jobs.py:320-326, app/workers/backup_verification.py:407-438).
  Only `Verification.LosersChangeNothing` needs this.
- SQL Server is an arbitrary outcome (an exception, no row, damaged, an error number, OK).
- Message and title texts are abstracted; disk percentages are compared as exact integers,
  where the code divides floats.

## Where the code does not do what its comments or a first reading suggest

- A PATCH without any field never reaches its guard: it is accepted on a run or a restore
  that has finished meanwhile (`JobRunExamples.EmptyPatchAcceptedOnFinishedRun`,
  `Restores.EmptyPatchAcceptedOnDoneRestore`; `JobRuns.PatchIsAtomic` and `Restores.PatchIsAtomic`
  give the exact condition).
- duration_seconds uses the started_at of the handler's read, so it can be stale or negative
  (`JobRunHistories.DurationCanBeStaleOrNegative`). `JobRuns.CompletionIsAtomicUpToDuration`
  and `JobRuns.ClaimAndCancelAreAtomic` say exactly when it is stale, `JobRuns.NegativeDuration`
  exactly when it is negative.
- check_stuck_pending_dispatch returns the alerts newly raised, not the runs marked as its
  docstring says (`JobRunExamples.StuckRunIsNotCounted`): the two agree iff no marked run's job had
  the alert (`JobRunStore.UncountedRuns`). check_agent_offline is the other way round: it returns
  the servers marked, not the new alerts its docstring promises (`AgentOffline.AdminEditMiscounts`).
  They agree iff no server marked had the alert (`AgentOffline.MarkedIffNewAlerts`), in particular
  where no admin has edited its status (`AgentOffline.SweepCountsNewAlerts`).
- A subscriber that takes the terminal branch can be closed normally without having been sent
  any status (`JobRunSockets.TerminalBranchCanMissFinalStatus`): exactly when close_all closes
  it and the broadcast before had not copied it (`JobRunSockets.ExactlyThatRaceMissesIt`).
- A manual run can end up on a WATCH job: the job is checked, moved to WATCH, and only then the
  run is inserted (`JobRunMachine.SplitCreationBreaksIt`; `JobRunMachine.ManualIffNoInsertOnWatch`
  gives the exact condition). Likewise a restore can become active on a deleted SQL instance
  (`Restores.SplitHandlersBreakIt`, `Restores.SplitDeletionBreaksIt`, `Restores.IdleIffNeverTooLate`).
- After an error-free stuck sweep a RUNNING verification older than the cutoff can exist: the
  executor reads its clock when it starts, not when it turns the run RUNNING
  (`Verification.ErrorFreeSweepCanLeaveAnOldRun`,
  `Verification.FinishedSweepLeavesOnlyNewcomers`). A PENDING run whose executor is gone is
  never swept and blocks its job (`Verification.OrphanedPendingIsNeverSwept`).
- One enabled job with an unknown time zone ends every missed-run tick: the exception is not
  among those caught, and the jobs after it are not looked at (`MissedRuns.Worker.CheckMissedRuns`).
- A later failure does not raise the severity of an ACTIVE alert: the helper returns the
  existing row unchanged (`AlertTable.Table.RaiseAlertIfAbsent`). A critical verification can so
  stay a warning (`VerificationAlerts.LaterFailureKeepsWarning`); `VerificationAlerts.AskedSeverityIff`
  says exactly when a report gets the severity it asks for.
- An admin who sets an OFFLINE server to any other status leaves its AGENT_OFFLINE alert ACTIVE
  (`AgentOffline.AdminEditLeavesTheAlert`).
- JOB_MISSED stays ACTIVE when a job moves to WATCH (`BackupJobs.JobMissedSurvivesWatch`,
  `BackupJobExamples.PatchToWatchBreaksMissed`), and either alert about a job's schedule can be raised
  for a job moved to WATCH since it was read (`BackupJobExamples.LateWriteBreaks`). Those are the
  only ways: `BackupJobMachine.OnScheduleIffNeverBroken`.
- A PATCH that nulls one hour of a stored copy window passes the schema and is refused by the
  database (`BackupJobs.WindowNullTrap`); a PATCH can attach a job to a deleted SQL instance
  (`BackupJobs.PatchCanAttachDeletedInstance`, `BackupJobs.PatchedOntoDeletedInstance`).
- A computed remote directory can be longer than an override may be
  (`RemotePaths.ComputedCanExceedOverrideLimit`, `RemotePaths.ComputedLength`).
- `is_valid_transition` of restores alone would let a finished restore change its outcome
  (`Restores.TransitionAloneIsNotFinal`); the handler's own check prevents it.

## Model

| member | source | states |
|---|---|---|
| Alerts.IndexIsOwnColumnUniqueness | app/models/alert.py:21-32 | on helper-built rows the COALESCE dedupe index holds iff (entity type, own column, alert type) is unique among ACTIVE rows |
| Alerts.KeyIsFirstSet | app/models/alert.py:21-23 | the generated key is the first column that is set, in the order of the COALESCE |
| Alerts.CheckMeans | app/models/alert.py:25-32 | the CHECK holds iff no two of the six columns are set |
| Alerts.WithoutHelperTheIndexOverblocks | app/models/alert.py:99-115 | without the helper the index can refuse two rows about different entities that every CHECK accepts |
| Alerts.InsertRefusedIffActive | app/routers/_alerts.py:38-87 | the index refuses the helper's row iff get_active_alert finds one |
| Alerts.DeleteParentEffect | app/models/alert.py:103-115 | ON DELETE SET NULL keeps the table valid and deactivates exactly the alerts of the deleted parent |
| Alerts.ParentGoneMeans | app/models/alert.py:99-115 | on every row, whatever its status, the reference becomes NULL and nothing else changes |
| Alerts.AdminEffect | app/routers/alerts.py:55-94 | acknowledge and resolve take exactly the row they hit out of the ACTIVE ones |
| Alerts.NeverTwoActive | app/routers/_alerts.py:20-117 | over every history of raises, resolves, admin actions and parent deletions no key matches two rows |
| Alerts.NoAlertReturnsToActive | app/routers/alerts.py:55-94 | an alert that left ACTIVE never returns to it, and rows are never removed |
| AlertTable.Table.GetActiveAlert | app/routers/_alerts.py:20-35 | the lookup finds the one matching row, none, or several; never several in a valid table |
| AlertTable.Table.InsertInSavepoint | app/routers/_alerts.py:73-87 | refused iff the key is ACTIVE; a refused insert is rolled back to the savepoint and every write the transaction had pending before survives |
| AlertTable.Table.RaiseAmidOthers | app/routers/_alerts.py:63-87 | with any valid table left by others between lookup and insert: None iff the race is lost, and then nothing pending is lost or added |
| AlertTable.Table.RaiseAlertIfAbsent | app/routers/_alerts.py:63-87 | one ACTIVE alert afterwards: the existing one unchanged, or a new open row of that type, severity and entity and of no other entity |
| AlertTable.Table.ResolveActiveAlert | app/routers/_alerts.py:90-117 | the ACTIVE alert of the key and no other becomes RESOLVED with the note |
| AlertTable.Table.AcknowledgeAlert | app/routers/alerts.py:55-73 | refused iff missing or RESOLVED; the user is recorded; acknowledging twice is no conflict |
| AlertTable.Table.ResolveAlert | app/routers/alerts.py:81-94 | refused iff missing or RESOLVED; the note is recorded |
| JobRuns.RejectionOnlyAcknowledges | app/routers/job_runs.py:38-56 | whatever happened between read and UPDATE, a rejected call changes nothing but possibly one acknowledgement |
| JobRuns.PatchIsAtomic | app/routers/job_runs.py:146-190 | an accepted PATCH is the atomic handler at its UPDATE iff it is not an empty body on a finished or vanished run |
| JobRuns.CompletionIsAtomicUpToDuration | app/routers/job_runs.py:203-266 | an accepted completion is the atomic one except for duration_seconds, and exactly when it is the same there too |
| JobRuns.ClaimAndCancelAreAtomic | app/routers/job_runs.py:282-374 | an interrupted claim is the atomic one, rejections included; so is a cancel, duration_seconds too iff it loses or both started_at give the same; on a run deleted meanwhile both change nothing and differ in the code only |
| JobRuns.NegativeDuration | app/routers/job_runs.py:213-218 | a winning completion or cancel writes a negative duration iff the started_at it read is at least one second after its finished_at; a timeout never does |
| JobRunHistories.DurationCanBeStaleOrNegative | app/routers/job_runs.py:213-218 | a history in which a completion writes -5 where an uninterrupted one writes 0 |
| JobRunExamples.EmptyPatchAcceptedOnFinishedRun | app/routers/job_runs.py:171-190 | a history in which a PATCH without fields is accepted on a run that finished after it was read |
| JobRunExamples.StuckRunIsNotCounted | app/workers/alert_worker.py:376-398 | a history after which the sweep marks one run and returns 0 |
| JobRunMachine.EveryReachableState | app/models/job_run.py:36-42 | in every reachable state only a job's newest run is active, last_run_at is the finish of its newest terminal run, STUCK runs are undispatched manual ones |
| JobRunMachine.StepKeepsManual | app/routers/job_runs.py:66-96 | a step keeps active manual runs on SCHEDULE jobs iff it is not the INSERT of one whose job has moved to WATCH |
| JobRunMachine.ManualIffNoInsertOnWatch | app/routers/job_runs.py:66-96 | the same over whole histories, both directions |
| JobRunMachine.AtomicCreationKeepsManual | app/routers/job_runs.py:69-75 | with each INSERT directly after its checks, active manual runs belong to SCHEDULE jobs |
| JobRunMachine.SplitCreationBreaksIt | app/routers/job_runs.py:69-96 | a history of split creation with a manual run on a WATCH job |
| JobRunMachine.WrittenEvolves | app/routers/job_runs.py:213-241 | each guarded UPDATE respects terminal finality, dispatched_at and the run's identity |
| JobRunMachine.TicketsMean | app/routers/job_runs.py:146-190 | a read changes nothing stored, a write happens once and from what was read |
| JobRunEffects.PatchWrites | app/routers/job_runs.py:171-190 | the UPDATE of a PATCH: accepted iff nothing was sent or the status is still the one read and no NOT NULL column is nulled; then every field sent has the value sent and no other column changes |
| JobRunEffects.CompletionWrites | app/routers/job_runs.py:213-266 | the UPDATE of a completion: the reported status, finish and fields, the duration truncated toward zero, last_run_at, and JOB_FAILED |
| JobRunEffects.ClaimWrites | app/routers/job_runs.py:289-313 | the UPDATE of a claim, and exactly when it matches |
| JobRunEffects.CancelWrites | app/routers/job_runs.py:333-363 | the UPDATE of a cancel, and exactly when it matches |
| JobRunEffects.AcknowledgeWrites | app/routers/job_runs.py:38-56 | only a CANCELLED unacknowledged run is acknowledged, and nothing else of it changes |
| JobRunEffects.PatchAnswers | app/routers/job_runs.py:146-195 | what a PATCH answers and leaves in every case |
| JobRunEffects.CompletionAnswers | app/routers/job_runs.py:203-274 | what a completion answers and leaves in every case |
| JobRunEffects.SweepReads | app/workers/alert_worker.py:245-264 | which runs the two sweeps let proceed, in minutes of the job, and with what |
| JobRunEffects.TimeoutWrites | app/workers/alert_worker.py:266-299 | a run still RUNNING ends as TIMEOUT with its duration, and JOB_TIMEOUT and no other alert becomes ACTIVE |
| JobRunEffects.StuckWrites | app/workers/alert_worker.py:340-398 | a run still PENDING and undispatched ends as STUCK, already acknowledged, and JOB_STUCK_PENDING and no other alert becomes ACTIVE |
| JobRunEffects.CreateAnswers | app/routers/job_runs.py:65-95 | what a creation answers and the columns of the row it inserts |
| JobRunEffects.DeleteJobMeans | app/routers/backup_jobs.py:266-290 | a job without an active run goes with exactly its runs, and its alerts lose their reference |
| JobRunHistories.RunEvolves | app/routers/job_runs.py:333-363 | between any two points of a history a terminal run keeps everything but a missing acknowledgement, and dispatched_at never changes once set |
| JobRunHistories.AtMostOneWinner | app/workers/alert_worker.py:348-372 | of a racing claim and STUCK sweep the first makes the other match no row; a run ends at most once |
| JobRunHistories.WinnerShows | app/routers/job_runs.py:171-190 | in every history the row after a winning write shows what its request asked for, column by column |
| JobRunHistories.EndedAsItsWinnerAsked | app/routers/job_runs.py:219-241 | in every history a run that has ended has the status and finish that one winning completion, cancel, timeout or STUCK mark asked for |
| JobRunHistories.JobFailedTracksLastOutcome | app/routers/job_runs.py:243-264 | JOB_FAILED is ACTIVE iff the job's latest SUCCESS, WARNING or FAILED run FAILED and no admin touched the alert since |
| JobRunHistories.CompletionDecidesOutcome | app/routers/job_runs.py:230-241 | a completion always decides the job's latest outcome, because the run it ends is the newest |
| JobRunStore.Backend.CreateJobRun | app/routers/job_runs.py:65-95 | 404, 409 (disabled, manual on WATCH, an active run) or a PENDING run with its columns: dispatched now unless manual |
| JobRunStore.Backend.UpdateJobRun | app/routers/job_runs.py:146-195 | uninterrupted: 404, 409 with the acknowledgement, 422 for a terminal status, 409 for a lost race or a NULL; otherwise each field sent has the value sent and all else stays |
| JobRunStore.Backend.CompleteJobRun | app/routers/job_runs.py:203-274 | uninterrupted: 422, 404, 409 with the acknowledgement, or the run takes the reported status, finish, duration and fields, its job's last_run_at the finish, and JOB_FAILED follows the status |
| JobRunStore.Backend.ClaimJobRun | app/routers/job_runs.py:282-313 | uninterrupted: 404, 409 unless a PENDING undispatched manual run, otherwise dispatched_at and nothing else |
| JobRunStore.Backend.CancelJobRun | app/routers/job_runs.py:320-374 | uninterrupted: 404, 409 unless PENDING or RUNNING, otherwise the cancel columns, the duration, the message and last_run_at |
| JobRunStore.Backend.DurationSeconds | app/routers/job_runs.py:213-218 | within one second of the difference, truncated toward zero, None without a start |
| JobRunStore.Backend.CommitUpdate | app/routers/job_runs.py:171-190 | the PATCH's write: no UPDATE for an empty body, 409 for a lost race or a NULL in a NOT NULL column |
| JobRunStore.Backend.AutoAcknowledgeCancelled | app/routers/job_runs.py:38-56 | acknowledges iff the run is CANCELLED and unacknowledged |
| JobRunStore.Backend.CommitClaim | app/routers/job_runs.py:289-313 | sets dispatched_at iff the run is a PENDING, undispatched manual one |
| JobRunStore.Backend.CommitCompletion | app/routers/job_runs.py:230-266 | with the start the handler had read: the row takes the reported status, finish and fields, last_run_at the finish, JOB_FAILED is ACTIVE iff FAILED (untouched for CANCELLED); or nothing changes |
| JobRunStore.Backend.CommitCancel | app/routers/job_runs.py:333-363 | the cancel columns, last_run_at and the answer |
| JobRunStore.Backend.TooLong | app/workers/alert_worker.py:257-264 | the tests in the sweep loops decide exactly the overdue or undelivered among the fetched rows |
| JobRunStore.QueryThenTests | app/workers/alert_worker.py:248-264 | the fetched rows that pass the tests are exactly the runs to end, each once |
| JobRunStore.Backend.CheckJobTimeouts | app/workers/alert_worker.py:235-302 | of the rows of the SELECT exactly the runs RUNNING longer than expected_max_duration_minutes end as TIMEOUT, JOB_TIMEOUT is ACTIVE iff it was or such a run ended, no other alert changes, the count is the runs timed out |
| JobRunStore.Backend.CheckStuckPendingDispatch | app/workers/alert_worker.py:318-411 | of the rows of the SELECT exactly the runs undispatched longer than pending_to_running_grace_minutes end as STUCK, JOB_STUCK_PENDING is ACTIVE iff it was or such a run ended, no other alert changes; the count is the alerts inserted |
| JobRunStore.SelectedIsRead | app/workers/alert_worker.py:245-264 | what a sweep selects is exactly what the split machine's read step lets proceed |
| JobRunStore.UncountedRuns | app/workers/alert_worker.py:376-398 | the count falls short of the runs marked iff some marked run's job had the alert already |
| CancelDelivery.OfferCancellations | app/routers/agents.py:325-340 | the poll offers per job the highest-id cancelled unacknowledged run, and nothing for a job without one |
| CancelDelivery.AnswerAcknowledgesThatRunOnly | app/routers/job_runs.py:152-154 | a PATCH or completion on an offered run acknowledges that run only |
| CancelDelivery.Conservation | app/routers/job_runs.py:38-56 | over every history: cancellations left = those before + new ones - acknowledgements; none is lost or acknowledged twice |
| CancelDelivery.RoundAcknowledges | app/routers/agents.py:325-340 | each poll-and-answer round in a history is one acknowledgement, of the run offered |
| CancelDelivery.RoundsDrain | app/routers/job_runs.py:209-211 | without new cancellations there are no more poll-and-answer rounds than cancellations unacknowledged at the start, and as many rounds leave nothing to offer; acknowledgements are as many iff nothing is left |
| ConnectionManager.Manager.Connect | app/core/ws_manager.py:22-24 | the registry gains exactly this subscription |
| ConnectionManager.Manager.Disconnect | app/core/ws_manager.py:26-33 | the registry loses exactly this subscription and keeps no empty set |
| ConnectionManager.Manager.SendEach | app/core/ws_manager.py:39-45 | every copied socket is tried exactly once; the dead ones are those whose send raised |
| ConnectionManager.Manager.Broadcast | app/core/ws_manager.py:35-54 | uninterrupted: every subscriber tried once, the dead ones deregistered |
| ConnectionManager.Manager.CloseAll | app/core/ws_manager.py:56-64 | every subscriber is deregistered and closed exactly once |
| JobRunSockets.StepsAreLockRegions | app/core/ws_manager.py:22-58 | every step of the interleaving changes the registry as one locked region of the manager does |
| JobRunSockets.NoneLeftWaiting | app/routers/job_run_ws.py:37-82 | while the run is over, a subscriber still waiting is one close_all has yet to reach; after it none waits |
| JobRunBroadcasts.BroadcastIsHeard | app/core/ws_manager.py:35-54 | over every interleaving a broadcast whose sending is over has reached every open socket it copied |
| JobRunBroadcasts.BroadcastsStart | app/routers/job_runs.py:186-190 | a broadcast carries the status it was called with, and the one that ends the run the final status |
| JobRunBroadcasts.DeliveriesMean | app/routers/job_run_ws.py:37-82 | a subscriber is sent the state it has read, once |
| JobRunSockets.LiveSubscribersSeeFinalStatus | app/routers/job_runs.py:266-272 | a live subscriber whose client stayed has the final status before any socket is closed |
| JobRunSockets.TerminalBranchCanMissFinalStatus | app/routers/job_run_ws.py:59-71 | a concrete history in which the terminal branch ends without any status sent |
| JobRunSockets.ExactlyThatRaceMissesIt | app/routers/job_run_ws.py:59-71 | of the ended subscribers with their client present, those without the final status are exactly the ones close_all closed and the broadcast had not copied |
| SocketHook.TerminalCacheIsFinal | frontend/src/hooks/useJobRunSocket.ts:99-117 | once the cached status is terminal no later message changes it |
| SocketHook.StepMeans | frontend/src/hooks/useJobRunSocket.ts:67-147 | what each event does: only 1000, 4401 and 4404 end the connection, any other close of the current socket schedules a reconnect, whose timer counts an attempt |
| SocketHook.Hook.OnMessage | frontend/src/hooks/useJobRunSocket.ts:99-117 | a stopped hook ignores the message; otherwise a well-formed one is cached, and a terminal one stops the hook |
| SocketHook.Hook.OnClose | frontend/src/hooks/useJobRunSocket.ts:119-147 | a stale socket's close changes nothing; 1000, 4401 and 4404 stop the hook, anything else schedules a reconnect unless it has stopped |
| SocketHook.ClientShowsFinalStatus | frontend/src/hooks/useJobRunSocket.ts:99-147 | end to end, a client whose connection is served by the live branch shows the final status, whatever its hook went through before (closes, reconnects) and whatever reaches it afterwards |
| Verification.EveryReachableState | app/workers/backup_verification.py:163-184 | at most one active verification run per job in every interleaving |
| Verification.TerminalIsFinal | app/workers/backup_verification.py:304-331 | a verification run gets at most one terminal status and keeps it with its instants |
| Verification.OnlyTheEnderReports | app/workers/backup_verification.py:336-365 | an executor changes an alert only after ending its own run, and reports that run's status |
| Verification.LosersChangeNothing | app/workers/backup_verification.py:304-331 | over every history with one executor per run: the RUNNING CAS is never lost, and an executor that loses the terminal CAS changes nothing, in that step or any later one, its marker included |
| Verification.AfterLosing | app/workers/backup_verification.py:174-182 | with any number of executors per run: after losing a CAS no alert is touched, and a row is changed only by a marker that runs while the run is RUNNING |
| Verification.ClassifyMeans | app/workers/backup_verification.py:232-270 | OK iff undamaged and verified; MISSING iff no msdb row; ERROR iff raised or, undamaged, error 3201 or 5133; CORRUPT iff damaged or any other error |
| Verification.ReportMeans | app/workers/backup_verification.py:336-365 | after a report the alert is ACTIVE iff the status is not OK, CRITICAL for CORRUPT and MISSING and otherwise WARNING, and no other alert changes |
| Verification.StageWrites | app/workers/backup_verification.py:130-365 | what each stage of an executor commits to its run |
| Verification.StageMoves | app/workers/backup_verification.py:130-372 | where each stage leads, lost CAS and exceptions included |
| Verification.SweepRowMeans | app/workers/backup_verification.py:500-540 | a swept run still RUNNING ends with ERROR and its job gets a WARNING; anything else stays |
| Verification.OtherEventsMean | app/workers/backup_verification.py:53-69 | requests, copy reports, starts and the sweep's SELECT and rows |
| Verification.CopyInsertsNeverConflict | app/workers/copy_verification.py:81-101 | a copy-integrity insert is never refused and never blocks another run |
| Verification.FinishedSweepLeavesOnlyNewcomers | app/workers/backup_verification.py:493-544 | after a sweep a run is RUNNING and older than the cutoff iff it is RUNNING and its row raised or it turned RUNNING, already that old, after the SELECT |
| Verification.ErrorFreeSweepCanLeaveAnOldRun | app/workers/backup_verification.py:116-117 | such newcomers occur |
| Verification.OrphanedPendingIsNeverSwept | app/workers/backup_verification.py:482-490 | a PENDING run without executor stays PENDING for ever and blocks its job |
| VerificationAlerts.SeverityIsOfTheInserter | app/workers/backup_verification.py:336-365 | over every history an ACTIVE verification alert has the severity asked for by the report or sweep that inserted it, and has been ACTIVE ever since |
| VerificationAlerts.AskedSeverityIff | app/routers/_alerts.py:63-87 | a failing report or a sweep leaves the severity it asks for iff no alert was ACTIVE or the ACTIVE one had it |
| VerificationAlerts.LaterFailureKeepsWarning | app/workers/backup_verification.py:336-365 | a history in which a CRITICAL report leaves a WARNING |
| VerificationAlerts.ExecutorReports | app/workers/backup_verification.py:336-365 | over every history BACKUP_VERIFICATION_FAILED of the job is ACTIVE after an executor's report iff its run did not come out OK, with the severity of its status |
| VerificationAlerts.CopyReports | app/workers/copy_verification.py:102-131 | likewise FTP_COPY_INTEGRITY_FAILED of the record after a copy report |
| VerificationStore.Store.CreatePendingVerificationRun | app/workers/backup_verification.py:53-69 | refused iff a run of the job is active |
| VerificationStore.Store.MarkRunErrorBestEffort | app/workers/backup_verification.py:72-99 | lets no exception out; unless its session raises the run is terminal afterwards |
| VerificationStore.Store.ExecuteVerificationRun | app/workers/backup_verification.py:102-372 | the run and BACKUP_VERIFICATION_FAILED after an uninterrupted execution, for every starting status, missing job, missing instance, undecryptable credentials, evidence and marker failure |
| VerificationStore.Store.CheckStuckVerifications | app/workers/backup_verification.py:459-546 | ends exactly the selected runs still RUNNING, counts the alerts newly raised, leaves none older than the cutoff |
| VerificationStore.Store.RecordCopyVerificationResult | app/workers/copy_verification.py:62-131 | inserts a terminal run with the mapped status; FTP_COPY_INTEGRITY_FAILED of the record is ACTIVE iff it is not OK, with its severity |
| Poller.MarkIsExact | bot/poller.py:106-151 | an alert still ACTIVE is at or below the saved mark iff a completed tick has seen it |
| Poller.DeliveryIsExact | bot/poller.py:106-151 | a completed tick pushes an alert iff it is the first completed tick to see it; a crashed one pushes only unseen alerts |
| Poller.PushedOnce | bot/poller.py:120-131 | no two completed ticks push the same alert |
| Poller.NeverMissed | bot/poller.py:108-115 | at any point of a history a completed tick has pushed an alert iff it is eligible and a completed tick has seen it |
| Poller.MarkCanDecrease | bot/poller.py:106 | the saved mark is not monotone |
| Poller.PageHoldsRanks | app/routers/alerts.py:41-44 | a page holds exactly the ACTIVE alerts whose rank, counted from the newest, falls into it |
| Poller.TwoPagesMiss | bot/poller.py:44-53 | exactly which alerts a fetch misses when the table changes between two pages |
| Poller.ResolvingBetweenPagesSkipsOne | bot/poller.py:44-53 | for every page size a reachable table in which one resolve between the pages loses an alert that stays ACTIVE |
| PollTick.FetchActiveAlerts | bot/poller.py:44-53 | over a stable table the pages together are the whole ACTIVE list, newest first |
| PollTick.SortedCandidates | bot/poller.py:108-115 | exactly the pushable alerts above the mark, in increasing order |
| PollTick.FanoutMeans | bot/poller.py:120-131 | one message per alert and user, at its place |
| PollTick.KeptMeans | bot/poller.py:73-90 | the users left start with the first whose token is not refused |
| PollTick.RecordedMeans | bot/poller.py:133-147 | an alert is recorded iff its call succeeds and no earlier one lost the token |
| PollTick.Bot.RunPollTick | bot/poller.py:56-153 | a completed uncrashed tick sends each ACTIVE alert above the mark that is not for the web only to each remaining user, in order, and nothing else; who remains, which alerts are recorded, and the mark saved |
| MissedRuns.StepAllSettles | app/workers/alert_worker.py:79-159 | after a tick each job reached has JOB_CRON_INVALID ACTIVE iff its cron does not parse and JOB_MISSED iff it is overdue; nothing else changes |
| MissedRuns.SecondTickIsIdle | app/workers/alert_worker.py:122-158 | a second tick at the same instant that gets to no other jobs changes nothing, whatever order its SELECT has |
| MissedRuns.RaisedAreInserted | app/workers/alert_worker.py:129-150 | the alerts counted are the JOB_MISSED rows inserted |
| MissedRuns.NotMissedWithinGrace | app/core/timeutils.py:25-42 | no JOB_MISSED within the grace period of the last run or, for a job that never ran, of its creation |
| MissedRuns.JudgeMeans | app/workers/alert_worker.py:79-129 | the verdict follows the next fire after last_run_at or, as long as it is NULL, after created_at; overdue iff that fire is more than the grace ago |
| MissedRuns.OnlyTheLastRunCounts | app/workers/alert_worker.py:80 | once a job has run, created_at no longer matters |
| MissedRuns.JobStepMeans | app/workers/alert_worker.py:96-158 | what a verdict does to the two alerts and their severities, and to no other |
| MissedRuns.Worker.CheckMissedRuns | app/workers/alert_worker.py:42-161 | the whole tick, including the jobs skipped after an unknown time zone |
| AgentOffline.OfflineIffInstantUnchanged | app/workers/alert_worker.py:193-213 | with any clocks: OFFLINE is written iff the server is not DISABLED and its last heartbeat since the stale read, if any, bears the instant read |
| AgentOffline.HeartbeatOverriddenIffSameInstant | app/workers/alert_worker.py:193-213 | with any clocks: OFFLINE overrides a heartbeat committed since the stale read iff one of them bears the instant read |
| AgentOffline.ActiveOfflineAlertMeansOffline | app/routers/agents.py:66-88 | absent admin status edits an ACTIVE AGENT_OFFLINE means the server is OFFLINE |
| AgentOffline.AdminEditLeavesTheAlert | app/routers/agents.py:82-88 | after an admin's status edit that still holds iff the alert was not ACTIVE or the status set is OFFLINE |
| AgentOffline.OnlyAdminsEnable | app/routers/agents.py:68-71 | neither a heartbeat nor the sweep changes a DISABLED status |
| AgentOffline.BeatAlertsEffect | app/routers/agents.py:76-113 | a heartbeat clears AGENT_OFFLINE, sets SERVER_UNREACHABLE to its report, and touches no other alert |
| AgentOffline.BeatMeans | app/routers/agents.py:66-80 | UNREACHABLE iff the report says so, unless DISABLED; last_seen_at is the instant of the report |
| AgentOffline.MarkOfflineMeans | app/workers/alert_worker.py:193-228 | the guarded UPDATE, exactly when it matches, with AGENT_OFFLINE and no other alert |
| AgentOffline.Worker.CheckAgentOffline | app/workers/alert_worker.py:164-232 | every stale server goes OFFLINE with an ACTIVE alert, the rows inserted are one AGENT_OFFLINE per marked server without one, nothing else changes; the count is the servers marked, and the rows inserted iff none of them had the alert |
| AgentOffline.MarkedIffNewAlerts | app/workers/alert_worker.py:226-232 | the servers a sweep marks are as many as its new alerts iff none of them had the alert ACTIVE |
| AgentOffline.SweepCountsNewAlerts | app/workers/alert_worker.py:164-232 | so the docstring's count is right after every history without an admin status edit of the selected servers |
| AgentOffline.AdminEditMiscounts | app/workers/alert_worker.py:164-232 | a history with such an edit after which a sweep counts one alert and inserts none |
| AgentOffline.MarkWithoutNewAlert | app/workers/alert_worker.py:197-228 | over every interleaving a mark inserts an alert iff none is ACTIVE; if one is, an admin edited the status or another sweep marked the server since the read |
| Heartbeat.Backend.SyncDisks | app/routers/agents.py:116-139 | the last sample of a repeated path wins, new disks are inactive, other disks are untouched |
| Heartbeat.Backend.CheckThresholds | app/routers/agents.py:170-248 | each touched active disk has CRITICAL ACTIVE iff full, LOW ACTIVE iff low; no other alert changes |
| Heartbeat.LevelIsPercentage | app/routers/agents.py:178-205 | full iff used_pct reaches the critical threshold, low iff the warning one only |
| Heartbeat.LevelStepMeans | app/routers/agents.py:170-248 | what the check of one disk raises, with which severity, and what it resolves |
| Heartbeat.Backend.AgentHeartbeat | app/routers/agents.py:60-262 | the whole heartbeat; the alert helper's savepoints never undo its server and disk updates, whatever races it loses; without a race the alerts are those of the report |
| BackupJobs.EveryReachableState | app/schemas/backup_job.py:57-121 | with every handler one step: every stored job is well formed, active manual runs belong to SCHEDULE jobs, JOB_CRON_INVALID is ACTIVE only on SCHEDULE jobs |
| BackupJobMachine.EveryReachableState | app/workers/alert_worker.py:62-112 | with the worker and the schedule-error report split at their awaits: jobs stay well formed, active manual runs on SCHEDULE jobs, both alerts ACTIVE only for jobs that exist |
| BackupJobMachine.StepKeepsOnSchedule | app/routers/backup_jobs.py:237-246 | a step keeps JOB_CRON_INVALID, or JOB_MISSED, ACTIVE only on SCHEDULE jobs iff it is no late write raising it for a job moved to WATCH and, for JOB_MISSED, no accepted PATCH to WATCH of a job that has it |
| BackupJobMachine.OnScheduleIffNeverBroken | app/workers/alert_worker.py:62-158 | the same over whole histories, both directions |
| BackupJobMachine.AtomicWritersKeepCronInvalid | app/routers/backup_jobs.py:464-496 | with atomic writers JOB_CRON_INVALID is ACTIVE only on SCHEDULE jobs |
| BackupJobExamples.PatchToWatchBreaksMissed | app/routers/backup_jobs.py:237-246 | a history of atomic handlers with JOB_MISSED ACTIVE on a WATCH job |
| BackupJobExamples.LateWriteBreaks | app/workers/alert_worker.py:62-112 | for every late write that raises one of the alerts a history in which it does so on a WATCH job |
| BackupJobMachine.CheckThenWriteIsWhole | app/routers/backup_jobs.py:464-496 | check and write with nothing in between are the atomic handler |
| BackupJobs.Backend.UpdateBackupJob | app/routers/backup_jobs.py:137-258 | 422 iff the schema refuses, 404 iff missing, otherwise accepted iff mode guard, NOT NULL columns, foreign key and well-formedness of the merged row allow it; rejected PATCHes change nothing |
| BackupJobs.AcceptableMeans | app/routers/backup_jobs.py:137-224 | exactly which PATCHes are accepted, refusal by refusal |
| BackupJobs.PatchIsStored | app/routers/backup_jobs.py:161-246 | every field sent is stored, all others stay; JOB_CRON_INVALID goes iff schedule_cron is sent or the mode is sent and the job is on WATCH, no other alert changes |
| BackupJobs.SurroundingsMean | app/routers/sql_instances.py:146-185 | servers and SQL instances are only marked deleted, an instance not while an enabled job names it; runs and job deletions |
| BackupJobs.MergeRoundTrip | app/routers/backup_jobs.py:161-162 | an empty PATCH changes nothing, and sending a row back makes any stored row that row |
| BackupJobs.MergeTwice | app/routers/backup_jobs.py:161-162 | two PATCHes in a row leave what one PATCH sending both leaves |
| BackupJobs.Backend.CheckMerged | app/routers/backup_jobs.py:167-224 | the router's ordered checks accept exactly the rows with consistent mode and verification fields |
| BackupJobs.Backend.CheckCopyWindow | app/schemas/backup_job.py:149-158 | accepts exactly no window or two different hours of the day |
| BackupJobs.Backend.CreateBackupJob | app/routers/backup_jobs.py:56-82 | which of 422, 404 and 409 is answered, in order, and otherwise exactly the new row |
| BackupJobs.Backend.ReportScheduleError | app/routers/backup_jobs.py:463-496 | 404, 409 on WATCH, otherwise JOB_CRON_INVALID is ACTIVE iff reported and no other alert changes |
| BackupJobs.WindowNullTrap | app/models/backup_job.py:44-59 | exactly which schema-valid window PATCHes the CHECK constraint refuses |
| BackupJobs.PatchedOntoDeletedInstance | app/routers/backup_jobs.py:161-177 | an accepted PATCH leaves the job on a deleted SQL instance iff it names one, or names none and the job was on one |
| BackupJobs.PatchCanAttachDeletedInstance | app/routers/backup_jobs.py:161-177 | such a PATCH is accepted for every well-formed job with a database name |
| BackupJobs.JobMissedSurvivesWatch | app/routers/backup_jobs.py:237-246 | JOB_MISSED stays ACTIVE on a job moved to WATCH and no tick looks at it again |
| Restores.PatchIsAtomic | app/routers/restore_operations.py:139-200 | an accepted PATCH is the atomic one at its UPDATE, with the exact exception; a rejected one changes nothing |
| Restores.TransitionAloneIsNotFinal | app/schemas/restore_operation.py:67-82 | the transition check alone permits a finished restore exactly the moves to DONE and FAILED |
| Restores.TransitionMeans | app/schemas/restore_operation.py:67-82 | the transitions allowed from each status |
| Restores.PatchMeans | app/routers/restore_operations.py:157-198 | the UPDATE of a PATCH, column by column, with the default completed_at and RESTORE_FAILED |
| Restores.PatchAnswers | app/routers/restore_operations.py:139-200 | what a PATCH answers and leaves in every case |
| Restores.EmptyPatchAcceptedOnDoneRestore | app/routers/restore_operations.py:139-200 | a history in which a PATCH without fields is accepted on a restore that finished after it was read |
| Restores.EveryReachableState | app/routers/restore_operations.py:59-75 | at most one restore per instance and database is active; an ACTIVE RESTORE_FAILED belongs to a FAILED restore |
| Restores.TerminalIsFinal | app/routers/restore_operations.py:142-179 | a finished restore never changes again |
| Restores.CancelledOnlyFromPending | app/schemas/restore_operation.py:67-82 | the step that makes a restore CANCELLED finds it PENDING |
| Restores.CancelledAfterRunningWentBack | app/schemas/restore_operation.py:78-79 | a restore that was RUNNING and is CANCELLED later was moved back to PENDING by a PATCH asking for it |
| Restores.StepKeepsIdle | app/routers/sql_instances.py:161-183 | a step keeps deleted instances without active restores iff it is neither an INSERT on an instance deleted since its check nor a deletion of one that became busy since its count |
| Restores.IdleIffNeverTooLate | app/routers/restore_operations.py:52-73 | the same over whole histories of split handlers, both directions |
| Restores.DeletedInstancesAreIdle | app/routers/sql_instances.py:161-183 | in particular with creation and deletion atomic |
| Restores.SplitHandlersBreakIt | app/routers/restore_operations.py:52-73 | with only the creation split at its awaits one can be |
| Restores.SplitDeletionBreaksIt | app/routers/sql_instances.py:161-183 | and with only the deletion split |
| Restores.Backend.CreateRestoreOperation | app/routers/restore_operations.py:38-75 | when it answers 422, 403, 404 and 409, and otherwise the PENDING row inserted |
| Restores.Backend.UpdateRestoreOperation | app/routers/restore_operations.py:139-200 | the uninterrupted PATCH: 404, 409, or every field sent stored, completed_at defaulted, RESTORE_FAILED with FAILED |
| Restores.Backend.CommitUpdate | app/routers/restore_operations.py:157-200 | the guarded write, the default completed_at and the RESTORE_FAILED alert |
| Restores.Backend.DeleteSqlInstance | app/routers/sql_instances.py:146-185 | deleted iff no enabled job, active restore or active verification run names it; deleting twice is no error |
| RemotePaths.ComputedSegments | app/core/remote_paths.py:49-78 | server, job with id, and FULL, DIFF, TLOG or CUSTOM: exactly three segments, each non-empty, of safe characters, neither "." nor ".." |
| RemotePaths.OverrideWins | app/core/remote_paths.py:70-72 | an override is taken literally |
| RemotePaths.SanitizeMeans | app/core/remote_paths.py:43-46 | the fallback iff the stripped name is empty or only dots, otherwise every unsafe character becomes an underscore |
| RemotePaths.StripMeans | app/core/remote_paths.py:43 | stripping removes the spaces at both ends and nothing else |
| RemotePaths.SplitMeans | app/schemas/backup_job.py:161-172 | splitting gives exactly the pieces between separators |
| RemotePaths.OverrideMeans | app/schemas/backup_job.py:161-172 | refused iff empty, with a space at an end, or with two dots standing alone between slashes of either kind |
| RemotePaths.DigitsMean | app/core/remote_paths.py:73 | the digits in the job segment are those of the id |
| RemotePaths.ComputedIsInjective | app/core/remote_paths.py:62-78 | two computed directories are equal iff id, type and both sanitised names are, for all names |
| RemotePaths.FixedPointsAreSafeSegments | app/core/remote_paths.py:29-46 | sanitising leaves exactly the safe segments alone |
| RemotePaths.SanitizeIsIdempotent | app/core/remote_paths.py:43-46 | sanitising twice is sanitising once |
| RemotePaths.ComputedPassesOverrideCheck | app/schemas/backup_job.py:161-172 | every computed directory passes the override check and is a fixed point as the override |
| RemotePaths.ComputedLength | app/schemas/backup_job.py:198 | the length of every computed directory, and exactly when it exceeds the 500 characters an override may have |
| RemotePaths.ComputedCanExceedOverrideLimit | app/schemas/backup_job.py:198 | for every id and type there are names of 255 characters for which it does |
| BotRestore.PendingIsOpened | bot/handlers/restore.py:192-199 | every pending entry was opened by an earlier /restore and counts its owner's mismatches, fewer than the limit |
| BotRestore.EverySubmissionIsRequested | bot/handlers/restore.py:104-172 | each submission follows its own /restore: same user, chat, database, record and instance, within the time-to-live and the attempt limit |
| BotRestore.StandingEntrySubmits | bot/handlers/restore.py:120-172 | conversely each timely exact confirmation of a standing entry is submitted, however many mismatches came before |
| BotRestore.EntryGoesIff | bot/handlers/restore.py:104-204 | exactly which messages end an entry |
| BotRestore.StepMeans | bot/handlers/restore.py:30-224 | what every message does to entries and submissions |
| BotRestore.OneSubmissionPerRestore | bot/handlers/restore.py:132-136 | between two submissions of a chat there is a new /restore |
| BotRestore.OthersChangeNothing | bot/handlers/restore.py:109-119 | nobody but the owner changes a pending entry or submits it |
| BotRestore.Bot.HandleRestore | bot/handlers/restore.py:30-96 | when /restore opens an entry, and which |
| BotRestore.Bot.ConfirmRestore | bot/handlers/restore.py:100-204 | what each text does to the entry and the submissions |
| BotRestore.Bot.HandleCancel | bot/handlers/restore.py:207-224 | only the owner's /cancel drops the entry |
| Migration0008.UpThenDown | alembic/versions/0008_ftp_copy_integrity.py:195-212 | with both statements' column lists matched position by position, upgrade then downgrade is the identity and upgrade keeps every dedupe key |
| Migration0008.PairedCopyKeeps | alembic/versions/0008_ftp_copy_integrity.py:195-212 | a copy whose two lists agree at each position keeps every column it names |
| Migration0008.ChecksMean | alembic/versions/0008_ftp_copy_integrity.py:288-299 | the two tables' CHECKs: the known entity types, and at most one reference |
| Migration0008.FiveKeysMean | alembic/versions/0008_ftp_copy_integrity.py:268-274 | the old key is the first column set in the order of its COALESCE |
| Migration0008.UpListsMatch | alembic/versions/0008_ftp_copy_integrity.py:195-212 | the upgrade's INSERT and SELECT lists agree at each position, with NULL for the new column |
| Migration0008.DownListsMatch | alembic/versions/0008_ftp_copy_integrity.py:308-325 | so do the downgrade's |
| Migration0008.DownThenUp | alembic/versions/0008_ftp_copy_integrity.py:308-325 | downgrade then upgrade is the identity iff no row has a backup_record_id |
| Migration0008.DownKeepsHelperKeys | alembic/versions/0008_ftp_copy_integrity.py:268-274 | downgrade keeps the keys and the uniqueness of helper-built rows |
| Migration0008.DownStaysValid | alembic/versions/0008_ftp_copy_integrity.py:288-299 | for any rows the index can be created again, and the old CHECKs hold iff the type is not backup_record |
| Migration0008.Database.Upgrade | alembic/versions/0008_ftp_copy_integrity.py:93-232 | always succeeds on a valid table |
| Migration0008.Database.Downgrade | alembic/versions/0008_ftp_copy_integrity.py:235-341 | fails iff some row has entity type backup_record, leaving the table as it was |

## Left out

- The 409 of the job-run PATCH for an invalid transition: the terminal cases are answered before
  it, and it accepts every other move, so no call reaches it.
- Range checks of request schemas (percentages, lengths, positive numbers) other than those of
  the copy window and the non-empty strings of job PATCHes.
- Deletion of a backup job under verification runs, and of job runs named by an alert of kind
  job_run: only the job-run machine and the configuration machine delete jobs.
- check_backup_verifications, the loop that requests and runs a verification per job: its two
  parts are modelled, its count of newly ACTIVE alerts is not.
- A bot tick or a worker tick is one step of its history; only the paging and the sweeps' own
  reads are split where a theorem depends on it.
- What becomes of the half-made alerts_old table after a failed downgrade, and the
  verification_runs part of the migration.
- The reconnect timer's random jitter and the connection-state labels of the browser hook.
- The uniqueness the database enforces when two requests insert the same disk at once: a
  heartbeat is one step.
- Server metrics, daily summary, users, watch events, pagination endpoints, authentication,
  credential encryption and the C# agent.
