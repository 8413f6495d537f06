/** What the handlers of job runs write, column by column, and what they answer: the effect of
    each call as a caller sees it, read off the stored rows before and after. */
module JobRunEffects {
  import opened Wrappers
  import opened JobRuns
  import Alerts

  // ---------------------------------------------------------------- columns

  /** Whole seconds from start to finish, truncated toward zero; none without a start. */
  predicate IsDuration(seconds: Option<int>, startedAt: Option<int>, finishedAt: int) {
    if startedAt == None then seconds == None
    else
      seconds.Some?
      && var rest := finishedAt - startedAt.value - seconds.value * 1_000_000;
      if startedAt.value <= finishedAt then 0 <= rest < 1_000_000 else -1_000_000 < rest <= 0
  }

  /** Every field sent has the value sent, every other one is as before. */
  predicate Sent(before: Details, sent: Details, after: Details) {
    && after.Keys == before.Keys + sent.Keys
    && (forall d | d in sent :: after[d] == sent[d])
    && (forall d | d in before && d !in sent :: after[d] == before[d])
  }

  /** A column after a PATCH: sent, sent as null, or left alone. */
  predicate Stored<T(==)>(before: Option<T>, field: Field<T>, after: Option<T>) {
    && (field.Set? ==> after == Some(field.value))
    && (field.Null? ==> after == None)
    && (field.Unset? ==> after == before)
  }

  predicate Identity(before: Run, after: Run) {
    after.jobId == before.jobId && after.trigger == before.trigger && after.createdAt == before.createdAt
  }

  predicate SameCancel(before: Run, after: Run) {
    && after.cancelRequestedAt == before.cancelRequestedAt && after.cancelRequestedBy == before.cancelRequestedBy
    && after.cancelAcknowledgedAt == before.cancelAcknowledgedAt
  }

  predicate SameTimes(before: Run, after: Run) {
    && after.startedAt == before.startedAt && after.finishedAt == before.finishedAt
    && after.durationSeconds == before.durationSeconds
  }

  /** PATCH. */
  predicate Patched(before: Run, patch: Patch, after: Run) {
    && Identity(before, after) && SameCancel(before, after) && after.dispatchedAt == before.dispatchedAt
    && after.durationSeconds == before.durationSeconds
    && after.status == (if patch.status.Set? then patch.status.value else before.status)
    && Stored(before.startedAt, patch.startedAt, after.startedAt)
    && Stored(before.finishedAt, patch.finishedAt, after.finishedAt)
    && Sent(before.details, patch.details, after.details)
  }

  /** POST complete, with the start the handler had read. */
  predicate Completed(before: Run, completion: Completion, read: Option<int>, finishedAt: int, after: Run) {
    && Identity(before, after) && SameCancel(before, after) && after.dispatchedAt == before.dispatchedAt
    && after.startedAt == before.startedAt
    && after.status == completion.status && after.finishedAt == Some(finishedAt)
    && IsDuration(after.durationSeconds, read, finishedAt)
    && Sent(before.details, completion.details, after.details)
  }

  /** POST claim. */
  predicate Claimed(before: Run, now: int, after: Run) {
    && Identity(before, after) && SameCancel(before, after) && SameTimes(before, after)
    && after.status == before.status && after.details == before.details
    && after.dispatchedAt == Some(now)
  }

  /** POST cancel. */
  predicate Cancelled(before: Run, username: string, read: Option<int>, now: int, after: Run) {
    && Identity(before, after) && after.dispatchedAt == before.dispatchedAt && after.startedAt == before.startedAt
    && after.status == CANCELLED && after.finishedAt == Some(now) && IsDuration(after.durationSeconds, read, now)
    && after.cancelRequestedAt == Some(now) && after.cancelRequestedBy == Some(username)
    && after.cancelAcknowledgedAt == before.cancelAcknowledgedAt
    && Sent(before.details, map[ErrorMessage := Some("Cancelled by operator " + username)], after.details)
  }

  /** The acknowledgement of a cancellation. */
  predicate Acknowledged(before: Run, now: int, after: Run) {
    && Identity(before, after) && SameTimes(before, after)
    && after.status == before.status && after.details == before.details && after.dispatchedAt == before.dispatchedAt
    && after.cancelRequestedAt == before.cancelRequestedAt && after.cancelRequestedBy == before.cancelRequestedBy
    && after.cancelAcknowledgedAt == Some(now)
  }

  /** A run ended by the timeout sweep. */
  predicate TimedOut(before: Run, since: int, now: int, after: Run) {
    && Identity(before, after) && SameCancel(before, after)
    && after.dispatchedAt == before.dispatchedAt && after.startedAt == before.startedAt
    && after.status == TIMEOUT && after.finishedAt == Some(now) && IsDuration(after.durationSeconds, Some(since), now)
    && Sent(before.details, map[ErrorMessage := Some("timeout")], after.details)
  }

  /** A run ended by the sweep of undelivered runs. */
  predicate MarkedStuck(before: Run, now: int, after: Run) {
    && Identity(before, after) && after.dispatchedAt == before.dispatchedAt && after.startedAt == before.startedAt
    && after.durationSeconds == before.durationSeconds
    && after.status == STUCK && after.finishedAt == Some(now)
    && after.cancelRequestedAt == Some(now) && after.cancelRequestedBy == Some("system:stuck_pending_detector")
    && after.cancelAcknowledgedAt == Some(now)
    && Sent(before.details, map[ErrorMessage := Some("stuck")], after.details)
  }

  // ---------------------------------------------------------------- the rest of the store

  /** No other run changes, and no run appears or goes. */
  predicate OnlyRun(before: Store, id: nat, after: Store) {
    && after.runs.Keys == before.runs.Keys
    && (forall k | k in before.runs && k != id :: after.runs[k] == before.runs[k])
    && after.nextJobId == before.nextJobId && after.nextRunId == before.nextRunId
  }

  /** last_run_at of one job, if it is there, and nothing else of any job. */
  predicate OnlyLastRunAt(before: Store, jobId: nat, at: int, after: Store) {
    && after.jobs.Keys == before.jobs.Keys
    && forall j | j in before.jobs ::
         after.jobs[j] == if j == jobId then before.jobs[j].(lastRunAt := Some(at)) else before.jobs[j]
  }

  /** What a completion does to JOB_FAILED, and to no other alert. */
  ghost predicate FailureReported(before: seq<Alerts.Alert>, jobId: nat, status: Status, after: seq<Alerts.Alert>) {
    var key := Alerts.Key(Alerts.BackupJob, jobId, Alerts.JobFailed);
    && (status == FAILED ==> Alerts.OnlyAlert(before, key, true, Alerts.Critical, after))
    && (status == SUCCESS || status == WARNING ==> Alerts.OnlyAlert(before, key, false, Alerts.Critical, after))
    && (status == CANCELLED ==> after == before)
  }

  // ---------------------------------------------------------------- the guarded UPDATEs

  predicate NullsVerification(details: Details) { VerificationStatus in details && details[VerificationStatus] == None }

  predicate FieldsSent(patch: Patch) {
    !patch.status.Unset? || !patch.startedAt.Unset? || !patch.finishedAt.Unset? || patch.details != map[]
  }

  lemma DurationMeans(startedAt: Option<int>, finishedAt: int)
    ensures IsDuration(Duration(startedAt, finishedAt), startedAt, finishedAt)
  {
  }

  /** The PATCH's UPDATE. */
  ghost predicate PatchDone(before: Store, id: nat, patch: Patch, expected: Status, after: Store, outcome: Outcome) {
    && (outcome == Accepted || outcome == Rejected(409))
    && (outcome == Accepted <==>
          FieldsSent(patch) ==>
            && id in before.runs && before.runs[id].status == expected
            && !patch.status.Null? && !NullsVerification(patch.details))
    && if outcome == Accepted && FieldsSent(patch) then
         && OnlyRun(before, id, after) && id in before.runs && id in after.runs
         && Patched(before.runs[id], patch, after.runs[id])
         && after.jobs == before.jobs && after.alerts == before.alerts
       else after == before
  }

  lemma PatchWrites(db: Store, req: Request)
    requires req.PatchReq?
    ensures PatchDone(db, req.runId, req.patch, req.expected, Commit(db, req).0, Commit(db, req).1)
  {
  }

  /** The completion's UPDATE and what goes with it in its transaction. */
  ghost predicate CompletionDone(before: Store, id: nat, completion: Completion, expected: Status, read: Option<int>,
                                 finishedAt: int, after: Store, outcome: Outcome)
  {
    && (outcome == Accepted || outcome == Rejected(409))
    && (outcome == Accepted <==>
          id in before.runs && before.runs[id].status == expected && !NullsVerification(completion.details))
    && if outcome == Accepted then
         && OnlyRun(before, id, after) && id in before.runs && id in after.runs
         && Completed(before.runs[id], completion, read, finishedAt, after.runs[id])
         && OnlyLastRunAt(before, before.runs[id].jobId, finishedAt, after)
         && FailureReported(before.alerts, before.runs[id].jobId, completion.status, after.alerts)
       else after == before
  }

  lemma CompletionRow(run: Run, req: Request)
    requires req.CompleteReq?
    ensures Completed(run, req.completion, req.startedAt, req.finishedAt, Written(run, req))
  {
    DurationMeans(req.startedAt, req.finishedAt);
  }

  lemma CompletionAlerts(alerts: seq<Alerts.Alert>, jobId: nat, req: Request)
    requires req.CompleteReq? && Alerts.Valid(alerts)
    ensures FailureReported(alerts, jobId, req.completion.status, AlertsAfter(alerts, jobId, req))
  {
    var key := Alerts.Key(Alerts.BackupJob, jobId, Alerts.JobFailed);
    Alerts.RaiseMeans(alerts, key, Alerts.Critical);
    Alerts.ResolveMeans(alerts, key, None, Alerts.Critical);
  }

  lemma CompletionWrites(db: Store, req: Request)
    requires req.CompleteReq? && Alerts.Valid(db.alerts)
    ensures CompletionDone(db, req.runId, req.completion, req.expected, req.startedAt, req.finishedAt,
                           Commit(db, req).0, Commit(db, req).1)
  {
    if Commit(db, req).1 == Accepted {
      CompletionRow(db.runs[req.runId], req);
      CompletionAlerts(db.alerts, db.runs[req.runId].jobId, req);
    }
  }

  /** The claim's UPDATE. */
  ghost predicate ClaimDone(before: Store, id: nat, now: int, after: Store, outcome: Outcome) {
    && (outcome == Accepted || outcome == Rejected(409))
    && (outcome == Accepted <==>
          && id in before.runs && before.runs[id].status == PENDING && before.runs[id].dispatchedAt == None
          && before.runs[id].trigger == Manual)
    && if outcome == Accepted then
         && OnlyRun(before, id, after) && id in before.runs && id in after.runs
         && Claimed(before.runs[id], now, after.runs[id])
         && after.jobs == before.jobs && after.alerts == before.alerts
       else after == before
  }

  lemma ClaimWrites(db: Store, req: Request)
    requires req.ClaimReq?
    ensures ClaimDone(db, req.runId, req.now, Commit(db, req).0, Commit(db, req).1)
  {
  }

  /** The cancel's UPDATE and last_run_at. */
  ghost predicate CancelDone(before: Store, id: nat, username: string, read: Option<int>, now: int, after: Store,
                             outcome: Outcome)
  {
    && (outcome == Accepted || outcome == Rejected(409))
    && (outcome == Accepted <==>
          id in before.runs && (before.runs[id].status == PENDING || before.runs[id].status == RUNNING))
    && if outcome == Accepted then
         && OnlyRun(before, id, after) && id in before.runs && id in after.runs
         && Cancelled(before.runs[id], username, read, now, after.runs[id])
         && OnlyLastRunAt(before, before.runs[id].jobId, now, after) && after.alerts == before.alerts
       else after == before
  }

  lemma CancelWrites(db: Store, req: Request)
    requires req.CancelReq?
    ensures CancelDone(db, req.runId, req.username, req.startedAt, req.now, Commit(db, req).0, Commit(db, req).1)
  {
    DurationMeans(req.startedAt, req.now);
  }

  /** A late answer of the agent acknowledges a cancellation, once, and does nothing else. */
  ghost predicate AcknowledgeDone(before: Store, id: nat, now: int, after: Store) {
    if id in before.runs && before.runs[id].status == CANCELLED && before.runs[id].cancelAcknowledgedAt == None then
      && OnlyRun(before, id, after) && id in after.runs && Acknowledged(before.runs[id], now, after.runs[id])
      && after.jobs == before.jobs && after.alerts == before.alerts
    else after == before
  }

  lemma AcknowledgeWrites(db: Store, req: Request)
    requires req.AcknowledgeReq?
    ensures AcknowledgeDone(db, req.runId, req.now, Commit(db, req).0) && Commit(db, req).1 == Rejected(409)
  {
  }

  // ---------------------------------------------------------------- whole calls

  predicate Ended(run: Run) { run.status != PENDING && run.status != RUNNING }

  predicate AsksToEnd(patch: Patch) {
    patch.status.Set? && patch.status.value != PENDING && patch.status.value != RUNNING
  }

  /** PATCH of a run, uninterrupted: what it answers and what it leaves. */
  ghost predicate PatchAnswer(before: Store, id: nat, patch: Patch, now: int, after: Store, outcome: Outcome) {
    if id !in before.runs then outcome == Rejected(404) && after == before
    else if Ended(before.runs[id]) then outcome == Rejected(409) && AcknowledgeDone(before, id, now, after)
    else if AsksToEnd(patch) then outcome == Rejected(422) && after == before
    else PatchDone(before, id, patch, before.runs[id].status, after, outcome)
  }

  lemma PatchAnswers(db: Store, id: nat, patch: Patch, now: int)
    ensures
      var (after, outcome) := Atomic(db, PatchCall(id, patch), now);
      PatchAnswer(db, id, patch, now, after, outcome)
  {
    if id in db.runs {
      if Ended(db.runs[id]) {
        AcknowledgeWrites(db, AcknowledgeReq(id, now));
      } else {
        PatchWrites(db, PatchReq(id, patch, db.runs[id].status));
      }
    }
  }

  predicate ReportsEnd(status: Status) {
    status == SUCCESS || status == WARNING || status == FAILED || status == CANCELLED
  }

  /** POST complete. */
  ghost predicate CompletionAnswer(before: Store, id: nat, completion: Completion, now: int, after: Store,
                                   outcome: Outcome)
  {
    if !ReportsEnd(completion.status) then outcome == Rejected(422) && after == before
    else if id !in before.runs then outcome == Rejected(404) && after == before
    else if Ended(before.runs[id]) then outcome == Rejected(409) && AcknowledgeDone(before, id, now, after)
    else
      CompletionDone(before, id, completion, before.runs[id].status, before.runs[id].startedAt,
                     if completion.finishedAt == None then now else completion.finishedAt.value, after, outcome)
  }

  lemma CompletionAnswers(db: Store, id: nat, completion: Completion, now: int)
    requires Alerts.Valid(db.alerts)
    ensures
      var (after, outcome) := Atomic(db, CompleteCall(id, completion), now);
      CompletionAnswer(db, id, completion, now, after, outcome)
  {
    if ReportsEnd(completion.status) && id in db.runs {
      if Ended(db.runs[id]) {
        AcknowledgeWrites(db, AcknowledgeReq(id, now));
      } else {
        CompletionWrites(db, Read(db, CompleteCall(id, completion), now).req);
      }
    }
  }

  /** POST claim and POST cancel: a missing run is 404, everything else is up to the UPDATE. */
  lemma ClaimAnswers(db: Store, id: nat, now: int)
    ensures
      var (after, outcome) := Atomic(db, ClaimCall(id), now);
      if id !in db.runs then outcome == Rejected(404) && after == db else ClaimDone(db, id, now, after, outcome)
  {
    if id in db.runs {
      ClaimWrites(db, ClaimReq(id, now));
    }
  }

  lemma CancelAnswers(db: Store, id: nat, username: string, now: int)
    ensures
      var (after, outcome) := Atomic(db, CancelCall(id, username), now);
      if id !in db.runs then outcome == Rejected(404) && after == db
      else CancelDone(db, id, username, db.runs[id].startedAt, now, after, outcome)
  {
    if id in db.runs {
      CancelWrites(db, CancelReq(id, username, db.runs[id].startedAt, now));
    }
  }

  /** The row before and after any winning UPDATE. */
  ghost predicate Shows(before: Run, req: Request, after: Run) {
    match req
    case PatchReq(_, patch, _) => Patched(before, patch, after)
    case AcknowledgeReq(_, now) => Acknowledged(before, now, after)
    case CompleteReq(_, completion, _, read, finishedAt) => Completed(before, completion, read, finishedAt, after)
    case ClaimReq(_, now) => Claimed(before, now, after)
    case CancelReq(_, username, read, now) => Cancelled(before, username, read, now, after)
    case TimeoutReq(_, since, now) => TimedOut(before, since, now, after)
    case StuckReq(_, now) => MarkedStuck(before, now, after)
  }

  lemma WrittenShows(run: Run, req: Request)
    ensures Shows(run, req, Written(run, req))
  {
    match req
    case CompleteReq(_, _, _, read, finishedAt) => DurationMeans(read, finishedAt);
    case CancelReq(_, _, read, now) => DurationMeans(read, now);
    case TimeoutReq(_, since, now) => DurationMeans(Some(since), now);
    case _ =>
  }

  /** The status and the finish with which a request ends a run. */
  predicate EndsWith(req: Request, status: Status, finishedAt: Option<int>) {
    match req
    case CompleteReq(_, completion, _, _, at) => status == completion.status && finishedAt == Some(at)
    case CancelReq(_, _, _, now) => status == CANCELLED && finishedAt == Some(now)
    case TimeoutReq(_, _, now) => status == TIMEOUT && finishedAt == Some(now)
    case StuckReq(_, now) => status == STUCK && finishedAt == Some(now)
    case _ => false
  }

  // ---------------------------------------------------------------- the sweeps' conditions

  /** RUNNING for more than the minutes its job allows. */
  predicate TimesOut(db: Store, id: nat, now: int) {
    && id in db.runs && db.runs[id].status == RUNNING && db.runs[id].startedAt.Some?
    && db.runs[id].jobId in db.jobs && db.jobs[db.runs[id].jobId].maxDurationMinutes.Some?
    && now - db.runs[id].startedAt.value > db.jobs[db.runs[id].jobId].maxDurationMinutes.value * 60_000_000
  }

  /** PENDING and undispatched for more than the minutes its job allows. */
  predicate GetsStuck(db: Store, id: nat, now: int) {
    && id in db.runs && db.runs[id].status == PENDING && db.runs[id].dispatchedAt == None
    && db.runs[id].jobId in db.jobs
    && now - db.runs[id].createdAt > db.jobs[db.runs[id].jobId].pendingGraceMinutes * 60_000_000
  }

  /** What the read step of either sweep lets proceed, and with which UPDATE. */
  lemma SweepReads(db: Store, id: nat, now: int)
    ensures Read(db, TimeoutSelect(id), now).Proceed? <==> TimesOut(db, id, now)
    ensures TimesOut(db, id, now) ==>
              Read(db, TimeoutSelect(id), now) == Proceed(TimeoutReq(id, db.runs[id].startedAt.value, now))
    ensures Read(db, StuckSelect(id), now).Proceed? <==> GetsStuck(db, id, now)
    ensures GetsStuck(db, id, now) ==> Read(db, StuckSelect(id), now) == Proceed(StuckReq(id, now))
  {
  }

  lemma TimeoutRow(run: Run, req: Request)
    requires req.TimeoutReq?
    ensures TimedOut(run, req.since, req.now, Written(run, req))
  {
    DurationMeans(Some(req.since), req.now);
  }

  lemma StuckRow(run: Run, req: Request)
    requires req.StuckReq?
    ensures MarkedStuck(run, req.now, Written(run, req))
  {
  }

  lemma SweepAlerts(alerts: seq<Alerts.Alert>, jobId: nat, req: Request)
    requires Alerts.Valid(alerts)
    ensures req.TimeoutReq? ==>
              Alerts.OnlyAlert(alerts, Alerts.Key(Alerts.BackupJob, jobId, Alerts.JobTimeout), true, Alerts.Critical,
                               AlertsAfter(alerts, jobId, req))
    ensures req.StuckReq? ==>
              Alerts.OnlyAlert(alerts, Alerts.Key(Alerts.BackupJob, jobId, Alerts.JobStuckPending), true,
                               Alerts.Critical, AlertsAfter(alerts, jobId, req))
  {
    Alerts.RaiseMeans(alerts, Alerts.Key(Alerts.BackupJob, jobId, Alerts.JobTimeout), Alerts.Critical);
    Alerts.RaiseMeans(alerts, Alerts.Key(Alerts.BackupJob, jobId, Alerts.JobStuckPending), Alerts.Critical);
  }

  /** The UPDATE of the timeout sweep: only a run still RUNNING ends, and JOB_TIMEOUT is ACTIVE. */
  lemma TimeoutWrites(db: Store, req: Request)
    requires req.TimeoutReq? && Alerts.Valid(db.alerts)
    ensures
      var after := Commit(db, req).0;
      if req.runId in db.runs && db.runs[req.runId].status == RUNNING then
        && OnlyRun(db, req.runId, after) && req.runId in after.runs
        && TimedOut(db.runs[req.runId], req.since, req.now, after.runs[req.runId])
        && OnlyLastRunAt(db, db.runs[req.runId].jobId, req.now, after)
        && Alerts.OnlyAlert(db.alerts, Alerts.Key(Alerts.BackupJob, db.runs[req.runId].jobId, Alerts.JobTimeout), true,
                            Alerts.Critical, after.alerts)
      else after == db
  {
    if req.runId in db.runs && db.runs[req.runId].status == RUNNING {
      TimeoutRow(db.runs[req.runId], req);
      SweepAlerts(db.alerts, db.runs[req.runId].jobId, req);
    }
  }

  /** The UPDATE of the other sweep: only a run still PENDING and undispatched ends, and
      JOB_STUCK_PENDING is ACTIVE. */
  lemma StuckWrites(db: Store, req: Request)
    requires req.StuckReq? && Alerts.Valid(db.alerts)
    ensures
      var after := Commit(db, req).0;
      if req.runId in db.runs && db.runs[req.runId].status == PENDING && db.runs[req.runId].dispatchedAt == None then
        && OnlyRun(db, req.runId, after) && req.runId in after.runs
        && MarkedStuck(db.runs[req.runId], req.now, after.runs[req.runId])
        && OnlyLastRunAt(db, db.runs[req.runId].jobId, req.now, after)
        && Alerts.OnlyAlert(db.alerts, Alerts.Key(Alerts.BackupJob, db.runs[req.runId].jobId, Alerts.JobStuckPending),
                            true, Alerts.Critical, after.alerts)
      else after == db
  {
    if req.runId in db.runs && db.runs[req.runId].status == PENDING && db.runs[req.runId].dispatchedAt == None {
      StuckRow(db.runs[req.runId], req);
      SweepAlerts(db.alerts, db.runs[req.runId].jobId, req);
    }
  }

  // ---------------------------------------------------------------- creation and the jobs

  /** A new run as POST leaves it: dispatched at once unless it is a manual one. */
  predicate Created(jobId: nat, trigger: Trigger, now: int, run: Run) {
    && run.jobId == jobId && run.status == PENDING && run.trigger == trigger && run.createdAt == now
    && run.startedAt == None && run.finishedAt == None && run.durationSeconds == None && run.details == map[]
    && run.cancelRequestedAt == None && run.cancelRequestedBy == None && run.cancelAcknowledgedAt == None
    && (trigger == Manual ==> run.dispatchedAt == None)
    && (trigger != Manual ==> run.dispatchedAt == Some(now))
  }

  ghost predicate CreateAnswer(before: Store, jobId: nat, trigger: Trigger, now: int, after: Store, outcome: Outcome) {
    if jobId !in before.jobs then outcome == Rejected(404) && after == before
    else if !before.jobs[jobId].enabled || (trigger == Manual && before.jobs[jobId].mode == WATCH)
            || exists id :: id in before.runs && before.runs[id].jobId == jobId && !Ended(before.runs[id])
    then outcome == Rejected(409) && after == before
    else
      && outcome == Accepted && before.nextRunId in after.runs
      && after == before.(runs := before.runs[before.nextRunId := after.runs[before.nextRunId]],
                          nextRunId := before.nextRunId + 1)
      && Created(jobId, trigger, now, after.runs[before.nextRunId])
  }

  lemma CreateAnswers(db: Store, jobId: nat, trigger: Trigger, now: int)
    ensures
      var (after, outcome) := CreateRun(db, jobId, trigger, now);
      CreateAnswer(db, jobId, trigger, now, after, outcome)
  {
    assert HasActiveRun(db, jobId) <==>
           exists id :: id in db.runs && db.runs[id].jobId == jobId && !Ended(db.runs[id]);
  }

  /** Editing a job changes exactly its four columns, and never last_run_at or a run. */
  lemma ConfigureMeans(db: Store, jobId: nat, enabled: bool, mode: Mode, maxMinutes: Option<nat>, grace: nat)
    ensures
      var after := ConfigureJob(db, jobId, enabled, mode, maxMinutes, grace);
      && after == db.(jobs := after.jobs) && after.jobs.Keys == db.jobs.Keys
      && (forall j | j in db.jobs && j != jobId :: after.jobs[j] == db.jobs[j])
      && (jobId in db.jobs ==>
            && after.jobs[jobId].lastRunAt == db.jobs[jobId].lastRunAt
            && if mode != db.jobs[jobId].mode && HasActiveRun(db, jobId) then after.jobs[jobId] == db.jobs[jobId]
               else
                 && after.jobs[jobId].enabled == enabled && after.jobs[jobId].mode == mode
                 && after.jobs[jobId].maxDurationMinutes == maxMinutes
                 && after.jobs[jobId].pendingGraceMinutes == grace)
  {
  }

  /** A new job has never run; the others and their runs are as before. */
  lemma CreateJobMeans(db: Store, enabled: bool, mode: Mode, maxMinutes: Option<nat>, grace: nat)
    ensures
      var after := CreateJob(db, enabled, mode, maxMinutes, grace);
      && db.nextJobId in after.jobs
      && after == db.(jobs := db.jobs[db.nextJobId := after.jobs[db.nextJobId]], nextJobId := db.nextJobId + 1)
      && var job := after.jobs[db.nextJobId];
      && job.enabled == enabled && job.mode == mode && job.maxDurationMinutes == maxMinutes
      && job.pendingGraceMinutes == grace && job.lastRunAt == None
  {
  }

  /** A job without an active run goes with exactly its own runs, and with its alerts' reference
      to it; any other deletion changes nothing. */
  lemma DeleteJobMeans(db: Store, jobId: nat)
    ensures
      var after := DeleteJob(db, jobId);
      if jobId in db.jobs && forall id | id in db.runs && db.runs[id].jobId == jobId :: Ended(db.runs[id]) then
        && after.jobs == db.jobs - {jobId}
        && (forall id :: id in after.runs <==> id in db.runs && db.runs[id].jobId != jobId)
        && (forall id | id in after.runs :: after.runs[id] == db.runs[id])
        && after.nextJobId == db.nextJobId && after.nextRunId == db.nextRunId
        && Alerts.ParentGone(db.alerts, Alerts.BackupJob, jobId, after.alerts)
      else after == db
  {
    Alerts.ParentGoneMeans(db.alerts, Alerts.BackupJob, jobId);
    assert HasActiveRun(db, jobId) <==>
           exists id :: id in db.runs && db.runs[id].jobId == jobId && !Ended(db.runs[id]);
  }
}
