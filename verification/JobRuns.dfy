/** Job runs and the handlers of app/routers/job_runs.py, each split at its await
    points into the step that reads a row and the step that writes it back with a
    guarded UPDATE, plus the TIMEOUT and STUCK sweeps of app/workers/alert_worker.py.

    Instants are integers counting microseconds. */
module JobRuns {
  import opened Wrappers
  import Alerts

  datatype Status = PENDING | RUNNING | SUCCESS | WARNING | FAILED | CANCELLED | TIMEOUT | STUCK

  predicate Terminal(s: Status) { s != PENDING && s != RUNNING }

  datatype Trigger = Scheduler | Watcher | Manual

  datatype Mode = SCHEDULE | WATCH

  /** The plain data columns of a run, which the handlers only copy. */
  datatype Detail =
    | FilePath | FileSizeBytes | VerificationStatus | VerificationDetails | ErrorMessage
    | LogOutput | Percent | CurrentFile | BytesDone

  type Details = map<Detail, Option<string>>

  datatype Job = Job(
    enabled: bool,
    mode: Mode,
    maxDurationMinutes: Option<nat>,
    pendingGraceMinutes: nat,
    lastRunAt: Option<int>)

  datatype Run = Run(
    jobId: nat,
    status: Status,
    trigger: Trigger,
    createdAt: int,
    startedAt: Option<int>,
    finishedAt: Option<int>,
    dispatchedAt: Option<int>,
    cancelRequestedAt: Option<int>,
    cancelRequestedBy: Option<string>,
    cancelAcknowledgedAt: Option<int>,
    durationSeconds: Option<int>,
    details: Details)
  {
    predicate Active() { !Terminal(status) }
  }

  datatype Store = Store(
    jobs: map<nat, Job>,
    runs: map<nat, Run>,
    nextJobId: nat,
    nextRunId: nat,
    alerts: seq<Alerts.Alert>)

  const EMPTY_STORE := Store(map[], map[], 0, 0, [])

  // ---------------------------------------------------------------- requests

  datatype Patch = Patch(status: Field<Status>, startedAt: Field<int>, finishedAt: Field<int>, details: Details) {
    predicate Empty() { status.Unset? && startedAt.Unset? && finishedAt.Unset? && details == map[] }
  }

  datatype Completion = Completion(status: Status, finishedAt: Option<int>, details: Details)

  datatype Call =
    | PatchCall(runId: nat, patch: Patch)
    | CompleteCall(runId: nat, completion: Completion)
    | ClaimCall(runId: nat)
    | CancelCall(runId: nat, username: string)
    | TimeoutSelect(runId: nat)
    | StuckSelect(runId: nat)

  /** A request in flight: everything its handler has read and computed so far. */
  datatype Request =
    | PatchReq(runId: nat, patch: Patch, expected: Status)
    | AcknowledgeReq(runId: nat, now: int)
    | CompleteReq(runId: nat, completion: Completion, expected: Status, startedAt: Option<int>, finishedAt: int)
    | ClaimReq(runId: nat, now: int)
    | CancelReq(runId: nat, username: string, startedAt: Option<int>, now: int)
    | TimeoutReq(runId: nat, since: int, now: int)
    | StuckReq(runId: nat, now: int)

  /** int(timedelta.total_seconds()): truncation toward zero. */
  function Seconds(micros: int): int {
    if micros >= 0 then micros / 1_000_000 else -(-micros / 1_000_000)
  }

  function Duration(startedAt: Option<int>, finishedAt: int): Option<int> {
    if startedAt.Some? then Some(Seconds(finishedAt - startedAt.value)) else None
  }

  /** The closed status set of JobRunCompleteRequest. */
  predicate Completes(s: Status) { s == SUCCESS || s == WARNING || s == FAILED || s == CANCELLED }

  predicate Overdue(db: Store, run: Run, now: int) {
    run.startedAt.Some? && run.jobId in db.jobs && db.jobs[run.jobId].maxDurationMinutes.Some? &&
    now - run.startedAt.value > db.jobs[run.jobId].maxDurationMinutes.value * MINUTE
  }

  predicate Undelivered(db: Store, run: Run, now: int) {
    run.jobId in db.jobs && now - run.createdAt > db.jobs[run.jobId].pendingGraceMinutes * MINUTE
  }

  /** The first half of a handler: the row is read, the body is checked against it. */
  function Read(db: Store, call: Call, now: int): ReadOutcome<Request> {
    if call.CompleteCall? && !Completes(call.completion.status) then Refused(422)
    else if call.runId !in db.runs then Refused(404)
    else
    var run := db.runs[call.runId];
    match call
    case PatchCall(id, patch) =>
      if Terminal(run.status) then Proceed(AcknowledgeReq(id, now))
      else if patch.status.Set? && Terminal(patch.status.value) then Refused(422)
      else Proceed(PatchReq(id, patch, run.status))
    case CompleteCall(id, completion) =>
      if Terminal(run.status) then Proceed(AcknowledgeReq(id, now))
      else Proceed(CompleteReq(id, completion, run.status, run.startedAt,
                               if completion.finishedAt.Some? then completion.finishedAt.value else now))
    case ClaimCall(id) => Proceed(ClaimReq(id, now))
    case CancelCall(id, username) => Proceed(CancelReq(id, username, run.startedAt, now))
    case TimeoutSelect(id) =>
      if run.status == RUNNING && Overdue(db, run, now)
      then Proceed(TimeoutReq(id, run.startedAt.value, now))
      else Refused(0)
    case StuckSelect(id) =>
      if run.status == PENDING && run.dispatchedAt == None && Undelivered(db, run, now)
      then Proceed(StuckReq(id, now))
      else Refused(0)
  }

  /** The WHERE clause of the guarded UPDATE, apart from the id. */
  predicate Guard(run: Run, req: Request) {
    match req
    case PatchReq(_, _, expected) => run.status == expected
    case AcknowledgeReq(_, _) => run.status == CANCELLED && run.cancelAcknowledgedAt == None
    case CompleteReq(_, _, expected, _, _) => run.status == expected
    case ClaimReq(_, _) => run.status == PENDING && run.dispatchedAt == None && run.trigger == Manual
    case CancelReq(_, _, _, _) => run.status == PENDING || run.status == RUNNING
    case TimeoutReq(_, _, _) => run.status == RUNNING
    case StuckReq(_, _) => run.status == PENDING && run.dispatchedAt == None
  }

  /** A NOT NULL column set to an explicit null: the UPDATE raises IntegrityError. */
  predicate WritesNull(req: Request) {
    match req
    case PatchReq(_, patch, _) =>
      patch.status.Null? || (VerificationStatus in patch.details && patch.details[VerificationStatus] == None)
    case CompleteReq(_, completion, _, _, _) =>
      VerificationStatus in completion.details && completion.details[VerificationStatus] == None
    case _ => false
  }

  /** The row the UPDATE leaves behind. */
  function Written(run: Run, req: Request): Run {
    match req
    case PatchReq(_, patch, _) =>
      run.(status := if patch.status.Set? then patch.status.value else run.status,
           startedAt := patch.startedAt.Over(run.startedAt),
           finishedAt := patch.finishedAt.Over(run.finishedAt),
           details := run.details + patch.details)
    case AcknowledgeReq(_, now) => run.(cancelAcknowledgedAt := Some(now))
    case CompleteReq(_, completion, _, startedAt, finishedAt) =>
      run.(status := completion.status, finishedAt := Some(finishedAt),
           durationSeconds := Duration(startedAt, finishedAt),
           details := run.details + completion.details)
    case ClaimReq(_, now) => run.(dispatchedAt := Some(now))
    case CancelReq(_, username, startedAt, now) =>
      run.(status := CANCELLED, finishedAt := Some(now), durationSeconds := Duration(startedAt, now),
           cancelRequestedAt := Some(now), cancelRequestedBy := Some(username),
           details := run.details[ErrorMessage := Some("Cancelled by operator " + username)])
    case TimeoutReq(_, since, now) =>
      run.(status := TIMEOUT, finishedAt := Some(now), durationSeconds := Some(Seconds(now - since)),
           details := run.details[ErrorMessage := Some("timeout")])
    case StuckReq(_, now) =>
      run.(status := STUCK, finishedAt := Some(now), cancelRequestedAt := Some(now),
           cancelRequestedBy := Some("system:stuck_pending_detector"), cancelAcknowledgedAt := Some(now),
           details := run.details[ErrorMessage := Some("stuck")])
  }

  predicate Finishes(req: Request) {
    req.CompleteReq? || req.CancelReq? || req.TimeoutReq? || req.StuckReq?
  }

  function JobAlert(jobId: nat, alertType: Alerts.AlertType): Alerts.Key {
    Alerts.Key(Alerts.BackupJob, jobId, alertType)
  }

  /** The alert changes made in the transaction of the UPDATE. */
  ghost function AlertsAfter(alerts: seq<Alerts.Alert>, jobId: nat, req: Request): seq<Alerts.Alert> {
    match req
    case CompleteReq(_, completion, _, _, _) =>
      if completion.status == FAILED then Alerts.Raise(alerts, JobAlert(jobId, Alerts.JobFailed), Alerts.Critical)
      else if completion.status == CANCELLED then alerts
      else Alerts.Resolve(alerts, JobAlert(jobId, Alerts.JobFailed), None)
    case TimeoutReq(_, _, _) => Alerts.Raise(alerts, JobAlert(jobId, Alerts.JobTimeout), Alerts.Critical)
    case StuckReq(_, _) => Alerts.Raise(alerts, JobAlert(jobId, Alerts.JobStuckPending), Alerts.Critical)
    case _ => alerts
  }

  predicate Wins(db: Store, req: Request) {
    req.runId in db.runs && Guard(db.runs[req.runId], req) && !WritesNull(req) &&
    !(req.PatchReq? && req.patch.Empty())
  }

  /** The second half of a handler, one transaction. */
  ghost function Commit(db: Store, req: Request): (Store, Outcome) {
    if req.PatchReq? && req.patch.Empty() then (db, Accepted)
    else if !Wins(db, req) then (db, Rejected(409))
    else
      var run := db.runs[req.runId];
      var written := Written(run, req);
      (db.(runs := db.runs[req.runId := written],
           jobs := if Finishes(req) && run.jobId in db.jobs
                   then db.jobs[run.jobId := db.jobs[run.jobId].(lastRunAt := written.finishedAt)]
                   else db.jobs,
           alerts := AlertsAfter(db.alerts, run.jobId, req)),
       if req.AcknowledgeReq? then Rejected(409) else Accepted)
  }

  /** A handler that nothing interrupts. */
  ghost function Atomic(db: Store, call: Call, now: int): (Store, Outcome) {
    match Read(db, call, now)
    case Refused(code) => (db, Rejected(code))
    case Proceed(req) => Commit(db, req)
  }

  // ---------------------------------------------------------------- other writers

  ghost predicate HasActiveRun(db: Store, jobId: nat) {
    exists id :: id in db.runs && db.runs[id].jobId == jobId && db.runs[id].Active()
  }

  /** A run that has passed the checks of POST and is still to be inserted. */
  datatype Creation = Creation(jobId: nat, trigger: Trigger, dispatchedAt: Option<int>)

  /** The first half of POST: the job is read and checked. */
  function CheckCreation(db: Store, jobId: nat, trigger: Trigger, now: int): ReadOutcome<Creation> {
    if jobId !in db.jobs then Refused(404)
    else if !db.jobs[jobId].enabled then Refused(409)
    else if trigger == Manual && db.jobs[jobId].mode == WATCH then Refused(409)
    else Proceed(Creation(jobId, trigger, if trigger == Manual then None else Some(now)))
  }

  function NewRun(c: Creation, now: int): Run {
    Run(c.jobId, PENDING, c.trigger, now, None, None, c.dispatchedAt, None, None, None, None, map[])
  }

  ghost predicate MayInsert(db: Store, c: Creation) { c.jobId in db.jobs && !HasActiveRun(db, c.jobId) }

  /** The second half: the INSERT, refused by the foreign key of a job deleted meanwhile or
      by the partial unique index on active runs. */
  ghost function InsertRun(db: Store, c: Creation, now: int): (Store, Outcome) {
    if !MayInsert(db, c) then (db, Rejected(409))
    else (db.(runs := db.runs[db.nextRunId := NewRun(c, now)], nextRunId := db.nextRunId + 1), Accepted)
  }

  /** POST that nothing interrupts. */
  ghost function CreateRun(db: Store, jobId: nat, trigger: Trigger, now: int): (Store, Outcome) {
    match CheckCreation(db, jobId, trigger, now)
    case Refused(code) => (db, Rejected(code))
    case Proceed(c) => InsertRun(db, c, now)
  }

  /** PATCH of a backup job, as far as runs depend on it: trigger_mode may not change
      under an active run. */
  ghost function ConfigureJob(
    db: Store, jobId: nat, enabled: bool, mode: Mode, maxMinutes: Option<nat>, grace: nat): Store
  {
    if jobId !in db.jobs || (mode != db.jobs[jobId].mode && HasActiveRun(db, jobId)) then db
    else db.(jobs := db.jobs[jobId := Job(enabled, mode, maxMinutes, grace, db.jobs[jobId].lastRunAt)])
  }

  function CreateJob(db: Store, enabled: bool, mode: Mode, maxMinutes: Option<nat>, grace: nat): Store {
    db.(jobs := db.jobs[db.nextJobId := Job(enabled, mode, maxMinutes, grace, None)], nextJobId := db.nextJobId + 1)
  }

  /** Deleting a job cascades to its runs and clears the alerts' reference to it. */
  ghost function DeleteJob(db: Store, jobId: nat): Store {
    if jobId !in db.jobs || HasActiveRun(db, jobId) then db
    else db.(jobs := db.jobs - {jobId},
             runs := map id | id in db.runs && db.runs[id].jobId != jobId :: db.runs[id],
             alerts := Alerts.DeleteParent(db.alerts, Alerts.BackupJob, jobId))
  }

  // ---------------------------------------------------------------- split handlers versus atomic ones

  /** A request that read one state and commits in another: what is rejected changed
      nothing, except that a cancelled run may have been acknowledged. */
  lemma RejectionOnlyAcknowledges(db: Store, req: Request)
    requires Commit(db, req).1.Rejected?
    ensures
      Commit(db, req).0 == db ||
      (req.AcknowledgeReq? && req.runId in db.runs
       && db.runs[req.runId].status == CANCELLED && db.runs[req.runId].cancelAcknowledgedAt == None
       && Commit(db, req).0 ==
          db.(runs := db.runs[req.runId := db.runs[req.runId].(cancelAcknowledgedAt := Some(req.now))]))
  {
    if req.AcknowledgeReq? && Wins(db, req) {
      var run := db.runs[req.runId];
      assert Commit(db, req).0 == db.(runs := db.runs[req.runId := Written(run, req)]);
    }
  }

  /** An accepted PATCH is the atomic handler at the instant of its UPDATE, whatever
      happened since it read the row. The one exception is a PATCH with no field set:
      it never reaches the guard, so it is accepted on a run that finished or vanished
      meanwhile. */
  lemma PatchIsAtomic(before: Store, db: Store, runId: nat, patch: Patch, now: int)
    requires Read(before, PatchCall(runId, patch), now).Proceed?
    requires Read(before, PatchCall(runId, patch), now).req.PatchReq?
    ensures
      var req := Read(before, PatchCall(runId, patch), now).req;
      Commit(db, req).1.Accepted? ==>
        (Commit(db, req) == Atomic(db, PatchCall(runId, patch), now) <==>
         !(patch.Empty() && (runId !in db.runs || Terminal(db.runs[runId].status))))
    ensures
      var req := Read(before, PatchCall(runId, patch), now).req;
      Commit(db, req).1.Rejected? && Atomic(db, PatchCall(runId, patch), now).1.Accepted? ==>
        runId in db.runs && before.runs[runId].status != db.runs[runId].status
  {
  }

  ghost predicate SameButDuration(a: Store, b: Store, runId: nat) {
    && runId in a.runs && runId in b.runs
    && a == b.(runs := b.runs[runId := b.runs[runId].(durationSeconds := a.runs[runId].durationSeconds)])
  }

  /** An accepted completion is the atomic one up to duration_seconds, which uses the
      started_at of the read; it is exact iff that started_at gives the same duration
      as the current one. */
  lemma CompletionIsAtomicUpToDuration(before: Store, db: Store, runId: nat, completion: Completion, now: int)
    requires Read(before, CompleteCall(runId, completion), now).Proceed?
    requires Read(before, CompleteCall(runId, completion), now).req.CompleteReq?
    ensures
      var req := Read(before, CompleteCall(runId, completion), now).req;
      var atomic := Atomic(db, CompleteCall(runId, completion), now);
      Commit(db, req).1.Accepted? ==>
        && atomic.1.Accepted? && SameButDuration(Commit(db, req).0, atomic.0, runId)
        && (Commit(db, req) == atomic <==>
            Duration(before.runs[runId].startedAt, req.finishedAt) ==
            Duration(db.runs[runId].startedAt, req.finishedAt))
  {
    var req := Read(before, CompleteCall(runId, completion), now).req;
    if Wins(db, req) {
      var run := db.runs[runId];
      var reread := CompleteReq(runId, completion, run.status, run.startedAt, req.finishedAt);
      assert Atomic(db, CompleteCall(runId, completion), now) == Commit(db, reread);
      assert Commit(db, req).0.runs[runId] == Written(run, req);
      assert Commit(db, reread).0.runs[runId] == Written(run, reread);
      assert Written(run, req) == Written(run, reread).(durationSeconds := Duration(req.startedAt, req.finishedAt));
      assert db.runs[runId := Written(run, req)] == db.runs[runId := Written(run, reread)][runId := Written(run, req)];
    }
  }

  /** Claim and cancel put their whole condition in the WHERE clause, so the interrupted
      handler is the atomic one, rejections included; a cancel that wins only keeps the
      duration of its read, and is the atomic one iff both started_at give the same.
      A run deleted meanwhile is rejected by both with no effect, as a lost race (409) rather
      than as missing (404). */
  lemma ClaimAndCancelAreAtomic(before: Store, db: Store, runId: nat, username: string, now: int)
    requires runId in before.runs
    ensures
      var req := Read(before, ClaimCall(runId), now).req;
      var atomic := Atomic(db, ClaimCall(runId), now);
      if runId in db.runs then Commit(db, req) == atomic
      else Commit(db, req) == (db, Rejected(409)) && atomic == (db, Rejected(404))
    ensures
      var req := Read(before, CancelCall(runId, username), now).req;
      var atomic := Atomic(db, CancelCall(runId, username), now);
      if runId in db.runs then
        && Commit(db, req).1 == atomic.1 && SameButDuration(Commit(db, req).0, atomic.0, runId)
        && (Commit(db, req) == atomic <==>
            Terminal(db.runs[runId].status)
            || Duration(before.runs[runId].startedAt, now) == Duration(db.runs[runId].startedAt, now))
      else Commit(db, req) == (db, Rejected(409)) && atomic == (db, Rejected(404))
  {
    if runId in db.runs {
      CancelIsAtomic(before, db, runId, username, now);
    }
  }

  lemma CancelIsAtomic(before: Store, db: Store, runId: nat, username: string, now: int)
    requires runId in before.runs && runId in db.runs
    ensures
      var req := Read(before, CancelCall(runId, username), now).req;
      var atomic := Atomic(db, CancelCall(runId, username), now);
      && Commit(db, req).1 == atomic.1 && SameButDuration(Commit(db, req).0, atomic.0, runId)
      && (Commit(db, req) == atomic <==>
          Terminal(db.runs[runId].status)
          || Duration(before.runs[runId].startedAt, now) == Duration(db.runs[runId].startedAt, now))
  {
    var req := Read(before, CancelCall(runId, username), now).req;
    var run := db.runs[runId];
    var reread := CancelReq(runId, username, run.startedAt, now);
    assert Atomic(db, CancelCall(runId, username), now) == Commit(db, reread);
    if Wins(db, req) {
      assert Commit(db, req).0.runs[runId] == Written(run, req);
      assert Commit(db, reread).0.runs[runId] == Written(run, reread);
      assert db.runs[runId := Written(run, req)] == db.runs[runId := Written(run, reread)][runId := Written(run, req)];
    } else {
      assert Commit(db, req).0 == db && Commit(db, reread).0 == db;
      assert db.runs == db.runs[runId := db.runs[runId].(durationSeconds := db.runs[runId].durationSeconds)];
    }
  }

  /** When the duration a completion or a cancel writes is negative: exactly when it had
      read a start at least one second after the finish it writes. The duration written by a
      timeout never is. */
  lemma NegativeDuration(before: Store, db: Store, call: Call, now: int)
    requires Read(before, call, now).Proceed?
    requires Finishes(Read(before, call, now).req) && Wins(db, Read(before, call, now).req) && !call.StuckSelect?
    ensures
      var read := before.runs[call.runId].startedAt;
      var run := Commit(db, Read(before, call, now).req).0.runs[call.runId];
      && run.finishedAt.Some? && (run.durationSeconds.Some? <==> read.Some?)
      && (run.durationSeconds.Some? && run.durationSeconds.value < 0 <==>
            read.Some? && run.finishedAt.value <= read.value - 1_000_000)
      && (call.TimeoutSelect? ==> run.durationSeconds.Some? && run.durationSeconds.value >= 0)
  {
    var req := Read(before, call, now).req;
    assert Commit(db, req).0.runs[call.runId] == Written(db.runs[call.runId], req);
  }
}
