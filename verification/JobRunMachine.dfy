/** Every interleaving of the job-run handlers and sweeps: a request reads in one event
    and commits in a later one, and anything may happen in between. */
module JobRunMachine {
  import opened Wrappers
  import opened JobRuns
  import Alerts

  datatype Event =
    | Start(ticket: nat, call: Call, now: int)
    | Finish(ticket: nat)
    | CreateChecks(ticket: nat, jobId: nat, trigger: Trigger, now: int)
    | CreateWrites(ticket: nat, now: int)
    | JobCreated(enabled: bool, mode: Mode, maxMinutes: Option<nat>, grace: nat)
    | JobConfigured(jobId: nat, enabled: bool, mode: Mode, maxMinutes: Option<nat>, grace: nat)
    | JobDeleted(jobId: nat)
    | AlertByAdmin(alertId: nat, action: Alerts.AdminAction)
    // Everything else that goes through the alert helper; only complete_job_run
    // raises or resolves JOB_FAILED.
    | AlertRaised(key: Alerts.Key, severity: Alerts.Severity)
    | AlertResolved(key: Alerts.Key, note: Option<string>)

  /** The store, the requests that have read their run, and the creations that have
      checked their job. */
  datatype State = State(db: Store, inFlight: map<nat, Request>, creating: map<nat, Creation>)

  ghost function Apply(s: State, e: Event): State {
    match e
    case Start(ticket, call, now) =>
      if ticket in s.inFlight || Read(s.db, call, now).Refused? then s
      else s.(inFlight := s.inFlight[ticket := Read(s.db, call, now).req])
    case Finish(ticket) =>
      if ticket !in s.inFlight then s
      else s.(db := Commit(s.db, s.inFlight[ticket]).0, inFlight := s.inFlight - {ticket})
    case CreateChecks(ticket, jobId, trigger, now) =>
      if ticket in s.creating || CheckCreation(s.db, jobId, trigger, now).Refused? then s
      else s.(creating := s.creating[ticket := CheckCreation(s.db, jobId, trigger, now).req])
    case CreateWrites(ticket, now) =>
      if ticket !in s.creating then s
      else s.(db := InsertRun(s.db, s.creating[ticket], now).0, creating := s.creating - {ticket})
    case JobCreated(enabled, mode, maxMinutes, grace) => s.(db := CreateJob(s.db, enabled, mode, maxMinutes, grace))
    case JobConfigured(jobId, enabled, mode, maxMinutes, grace) =>
      s.(db := ConfigureJob(s.db, jobId, enabled, mode, maxMinutes, grace))
    case JobDeleted(jobId) => s.(db := DeleteJob(s.db, jobId))
    case AlertByAdmin(id, action) => s.(db := s.db.(alerts := Alerts.Admin(s.db.alerts, id, action)))
    case AlertRaised(key, severity) =>
      if key.alertType == Alerts.JobFailed then s
      else s.(db := s.db.(alerts := Alerts.Raise(s.db.alerts, key, severity)))
    case AlertResolved(key, note) =>
      if key.alertType == Alerts.JobFailed then s
      else s.(db := s.db.(alerts := Alerts.Resolve(s.db.alerts, key, note)))
  }

  /** The state after a history of events. */
  ghost function After(events: seq<Event>): State {
    if events == [] then State(EMPTY_STORE, map[], map[])
    else Apply(After(events[..|events| - 1]), events[|events| - 1])
  }

  /** Reading changes nothing but what is in flight; a write happens once, from what was read. */
  lemma TicketsMean(s: State, t: nat, call: Call, now: int)
    ensures Apply(s, Start(t, call, now)).db == s.db && Apply(s, Start(t, call, now)).creating == s.creating
    ensures t !in s.inFlight && Read(s.db, call, now).Proceed? ==>
              Apply(s, Start(t, call, now)).inFlight == s.inFlight[t := Read(s.db, call, now).req]
    ensures t in s.inFlight ==>
              && t !in Apply(s, Finish(t)).inFlight && Apply(s, Finish(t)).db == Commit(s.db, s.inFlight[t]).0
    ensures t in s.creating ==>
              && t !in Apply(s, CreateWrites(t, now)).creating
              && Apply(s, CreateWrites(t, now)).db == InsertRun(s.db, s.creating[t], now).0
  {
  }

  // ---------------------------------------------------------------- the invariant

  ghost predicate Wellformed(req: Request) {
    match req
    case PatchReq(_, patch, expected) =>
      !Terminal(expected) && (patch.status.Set? ==> !Terminal(patch.status.value))
    case CompleteReq(_, completion, expected, _, _) => !Terminal(expected) && Completes(completion.status)
    case _ => true
  }

  ghost predicate References(db: Store) {
    && (forall j :: j in db.jobs ==> j < db.nextJobId)
    && (forall id :: id in db.runs ==> id < db.nextRunId && db.runs[id].jobId in db.jobs)
  }

  /** Of all runs of a job, every one but the highest-id one is terminal. */
  ghost predicate OnlyNewestActive(runs: map<nat, Run>) {
    forall i, k :: i in runs && k in runs && i < k && runs[i].jobId == runs[k].jobId ==> Terminal(runs[i].status)
  }

  ghost predicate RunOk(run: Run) {
    && (run.trigger != Manual ==> run.dispatchedAt.Some?)
    && (run.status == STUCK ==> run.trigger == Manual && run.dispatchedAt == None)
    && (!Terminal(run.status) ==> run.cancelAcknowledgedAt == None)
  }

  ghost predicate ManualOnSchedule(db: Store) {
    forall id :: id in db.runs && db.runs[id].Active() && db.runs[id].trigger == Manual && db.runs[id].jobId in db.jobs
      ==> db.jobs[db.runs[id].jobId].mode == SCHEDULE
  }

  ghost predicate TerminalOf(runs: map<nat, Run>, jobId: nat, id: nat) {
    id in runs && runs[id].jobId == jobId && Terminal(runs[id].status)
  }

  ghost predicate NewestTerminal(runs: map<nat, Run>, jobId: nat, id: nat) {
    TerminalOf(runs, jobId, id) && forall k: nat | TerminalOf(runs, jobId, k) :: k <= id
  }

  ghost predicate LastRunOk(runs: map<nat, Run>, jobId: nat, lastRunAt: Option<int>) {
    && (forall id: nat | NewestTerminal(runs, jobId, id) :: lastRunAt == runs[id].finishedAt && lastRunAt.Some?)
    && ((forall id: nat :: !TerminalOf(runs, jobId, id)) ==> lastRunAt == None)
  }

  ghost predicate LastRuns(db: Store) {
    forall j :: j in db.jobs ==> LastRunOk(db.runs, j, db.jobs[j].lastRunAt)
  }

  ghost predicate DbInv(db: Store) {
    && References(db)
    && OnlyNewestActive(db.runs)
    && (forall id :: id in db.runs ==> RunOk(db.runs[id]))
    && LastRuns(db)
    && Alerts.Valid(db.alerts)
  }

  ghost predicate Inv(s: State) {
    && DbInv(s.db)
    && (forall t :: t in s.inFlight ==> Wellformed(s.inFlight[t]))
    && (forall t :: t in s.creating ==> (s.creating[t].trigger != Manual ==> s.creating[t].dispatchedAt.Some?))
  }

  // ---------------------------------------------------------------- what one write does to one run

  /** What may happen to a run from one state to any later one. */
  ghost predicate Evolves(a: Run, b: Run) {
    && b.jobId == a.jobId && b.trigger == a.trigger && b.createdAt == a.createdAt
    && (a.dispatchedAt.Some? ==> b.dispatchedAt == a.dispatchedAt)
    && (Terminal(a.status) ==>
          b == a || (a.status == CANCELLED && a.cancelAcknowledgedAt == None && b.cancelAcknowledgedAt.Some?
                     && b == a.(cancelAcknowledgedAt := b.cancelAcknowledgedAt)))
  }

  lemma WrittenEvolves(run: Run, req: Request)
    requires Wellformed(req) && Guard(run, req)
    ensures Evolves(run, Written(run, req))
    ensures RunOk(run) ==> RunOk(Written(run, req))
    ensures Finishes(req) <==> !Terminal(run.status) && Terminal(Written(run, req).status)
    ensures Finishes(req) ==> Written(run, req).finishedAt.Some?
    ensures !Finishes(req) ==> (Terminal(Written(run, req).status) <==> Terminal(run.status))
    ensures !Finishes(req) && Terminal(run.status) ==> Written(run, req).finishedAt == run.finishedAt
  {
  }

  // ---------------------------------------------------------------- last_run_at

  lemma SameTerminalRuns(runs: map<nat, Run>, after: map<nat, Run>, jobId: nat, lastRunAt: Option<int>)
    requires LastRunOk(runs, jobId, lastRunAt)
    requires forall id: nat :: TerminalOf(after, jobId, id) <==> TerminalOf(runs, jobId, id)
    requires forall id: nat | TerminalOf(runs, jobId, id) && TerminalOf(after, jobId, id) ::
               after[id].finishedAt == runs[id].finishedAt
    ensures LastRunOk(after, jobId, lastRunAt)
  {
    forall id: nat | NewestTerminal(after, jobId, id)
      ensures lastRunAt == after[id].finishedAt && lastRunAt.Some?
    {
      assert NewestTerminal(runs, jobId, id);
    }
  }

  lemma FinishedRunIsNewestTerminal(runs: map<nat, Run>, id: nat, written: Run)
    requires id in runs && OnlyNewestActive(runs) && !Terminal(runs[id].status)
    requires written.jobId == runs[id].jobId && Terminal(written.status) && written.finishedAt.Some?
    ensures LastRunOk(runs[id := written], written.jobId, written.finishedAt)
  {
    var after := runs[id := written];
    assert TerminalOf(after, written.jobId, id);
    forall k: nat | NewestTerminal(after, written.jobId, k)
      ensures k == id
    {
      assert k >= id;
    }
  }

  // ---------------------------------------------------------------- each event keeps the invariant

  lemma WriteKeepsOneActive(runs: map<nat, Run>, id: nat, written: Run)
    requires id in runs && OnlyNewestActive(runs) && Evolves(runs[id], written)
    ensures OnlyNewestActive(runs[id := written])
  {
  }

  lemma WriteKeepsLastRun(runs: map<nat, Run>, id: nat, written: Run, jobId: nat, lastRunAt: Option<int>)
    requires id in runs && LastRunOk(runs, jobId, lastRunAt) && written.jobId == runs[id].jobId
    requires runs[id].jobId == jobId ==> (Terminal(written.status) <==> Terminal(runs[id].status))
    requires Terminal(runs[id].status) ==> written.finishedAt == runs[id].finishedAt
    ensures LastRunOk(runs[id := written], jobId, lastRunAt)
  {
    SameTerminalRuns(runs, runs[id := written], jobId, lastRunAt);
  }

  lemma CommitKeepsLastRuns(db: Store, req: Request)
    requires References(db) && OnlyNewestActive(db.runs) && LastRuns(db)
    requires Wellformed(req) && Wins(db, req)
    ensures LastRuns(Commit(db, req).0)
  {
    var run := db.runs[req.runId];
    var written := Written(run, req);
    var after := Commit(db, req).0;
    WrittenEvolves(run, req);
    forall j | j in after.jobs
      ensures LastRunOk(after.runs, j, after.jobs[j].lastRunAt)
    {
      if Finishes(req) && j == run.jobId {
        FinishedRunIsNewestTerminal(db.runs, req.runId, written);
      } else {
        WriteKeepsLastRun(db.runs, req.runId, written, j, db.jobs[j].lastRunAt);
      }
    }
  }

  lemma CommitKeepsInv(db: Store, req: Request)
    requires DbInv(db) && Wellformed(req)
    ensures DbInv(Commit(db, req).0)
  {
    if Wins(db, req) {
      var run := db.runs[req.runId];
      var written := Written(run, req);
      WrittenEvolves(run, req);
      WriteKeepsOneActive(db.runs, req.runId, written);
      assert LastRuns(Commit(db, req).0) by { CommitKeepsLastRuns(db, req); }
      assert Alerts.Valid(Commit(db, req).0.alerts) by { CommitKeepsAlertsValid(db.alerts, run.jobId, req); }
    }
  }

  lemma CommitKeepsAlertsValid(alerts: seq<Alerts.Alert>, jobId: nat, req: Request)
    requires Alerts.Valid(alerts)
    ensures Alerts.Valid(AlertsAfter(alerts, jobId, req))
  {
    match req
    case CompleteReq(_, completion, _, _, _) =>
      Alerts.RaiseEffect(alerts, JobAlert(jobId, Alerts.JobFailed), Alerts.Critical);
      Alerts.ResolveEffect(alerts, JobAlert(jobId, Alerts.JobFailed), None);
    case TimeoutReq(_, _, _) => Alerts.RaiseEffect(alerts, JobAlert(jobId, Alerts.JobTimeout), Alerts.Critical);
    case StuckReq(_, _) => Alerts.RaiseEffect(alerts, JobAlert(jobId, Alerts.JobStuckPending), Alerts.Critical);
    case _ =>
  }

  lemma NewRunKeepsLastRuns(db: Store, run: Run)
    requires LastRuns(db) && db.nextRunId !in db.runs && !Terminal(run.status)
    ensures LastRuns(db.(runs := db.runs[db.nextRunId := run], nextRunId := db.nextRunId + 1))
  {
    forall j | j in db.jobs
      ensures LastRunOk(db.runs[db.nextRunId := run], j, db.jobs[j].lastRunAt)
    {
      SameTerminalRuns(db.runs, db.runs[db.nextRunId := run], j, db.jobs[j].lastRunAt);
    }
  }

  lemma NewRunKeepsOneActive(db: Store, run: Run)
    requires References(db) && OnlyNewestActive(db.runs) && !HasActiveRun(db, run.jobId)
    ensures OnlyNewestActive(db.runs[db.nextRunId := run])
  {
  }

  lemma NewRunKeepsReferences(db: Store, run: Run)
    requires References(db) && run.jobId in db.jobs
    ensures References(db.(runs := db.runs[db.nextRunId := run], nextRunId := db.nextRunId + 1))
  {
  }

  lemma InsertedRunOk(db: Store, run: Run)
    requires DbInv(db) && run.status == PENDING && RunOk(run) && run.jobId in db.jobs && !HasActiveRun(db, run.jobId)
    ensures DbInv(db.(runs := db.runs[db.nextRunId := run], nextRunId := db.nextRunId + 1))
  {
    NewRunKeepsLastRuns(db, run);
    NewRunKeepsOneActive(db, run);
    NewRunKeepsReferences(db, run);
  }

  lemma InsertRunKeepsInv(db: Store, c: Creation, now: int)
    requires DbInv(db) && (c.trigger != Manual ==> c.dispatchedAt.Some?)
    ensures DbInv(InsertRun(db, c, now).0)
  {
    if MayInsert(db, c) {
      InsertedRunOk(db, NewRun(c, now));
    }
  }

  lemma CreateJobKeepsInv(db: Store, enabled: bool, mode: Mode, maxMinutes: Option<nat>, grace: nat)
    requires DbInv(db)
    ensures DbInv(CreateJob(db, enabled, mode, maxMinutes, grace))
  {
    assert forall id: nat :: !TerminalOf(db.runs, db.nextJobId, id);
  }

  lemma ConfigureJobKeepsInv(db: Store, jobId: nat, enabled: bool, mode: Mode, maxMinutes: Option<nat>, grace: nat)
    requires DbInv(db)
    ensures DbInv(ConfigureJob(db, jobId, enabled, mode, maxMinutes, grace))
  {
  }

  lemma DeleteJobKeepsInv(db: Store, jobId: nat)
    requires DbInv(db)
    ensures DbInv(DeleteJob(db, jobId))
  {
    var after := DeleteJob(db, jobId);
    Alerts.DeleteParentEffect(db.alerts, Alerts.BackupJob, jobId);
    forall j | j in after.jobs
      ensures LastRunOk(after.runs, j, after.jobs[j].lastRunAt)
    {
      SameTerminalRuns(db.runs, after.runs, j, db.jobs[j].lastRunAt);
    }
  }

  lemma AlertEventsKeepValid(alerts: seq<Alerts.Alert>, e: Event)
    requires Alerts.Valid(alerts)
    ensures e.AlertByAdmin? ==> Alerts.Valid(Alerts.Admin(alerts, e.alertId, e.action))
    ensures e.AlertRaised? ==> Alerts.Valid(Alerts.Raise(alerts, e.key, e.severity))
    ensures e.AlertResolved? ==> Alerts.Valid(Alerts.Resolve(alerts, e.key, e.note))
  {
    match e
    case AlertByAdmin(id, action) => Alerts.AdminEffect(alerts, id, action);
    case AlertRaised(key, severity) => Alerts.RaiseEffect(alerts, key, severity);
    case AlertResolved(key, note) => Alerts.ResolveEffect(alerts, key, note);
    case _ =>
  }

  lemma AlertEventKeepsInv(s: State, e: Event)
    requires DbInv(s.db) && (e.AlertByAdmin? || e.AlertRaised? || e.AlertResolved?)
    ensures DbInv(Apply(s, e).db)
  {
    AlertEventsKeepValid(s.db.alerts, e);
  }

  lemma ReadIsWellformed(db: Store, call: Call, now: int)
    requires Read(db, call, now).Proceed?
    ensures Wellformed(Read(db, call, now).req)
  {
  }

  lemma StartKeepsInv(s: State, e: Event)
    requires Inv(s) && e.Start?
    ensures Inv(Apply(s, e))
  {
    if Read(s.db, e.call, e.now).Proceed? {
      ReadIsWellformed(s.db, e.call, e.now);
    }
  }

  lemma DbStepKeepsInv(s: State, e: Event)
    requires DbInv(s.db) && !e.Start? && !e.Finish? && !e.CreateChecks? && !e.CreateWrites?
    ensures DbInv(Apply(s, e).db)
  {
    match e
    case JobCreated(enabled, mode, maxMinutes, grace) => CreateJobKeepsInv(s.db, enabled, mode, maxMinutes, grace);
    case JobConfigured(jobId, enabled, mode, maxMinutes, grace) =>
      ConfigureJobKeepsInv(s.db, jobId, enabled, mode, maxMinutes, grace);
    case JobDeleted(jobId) => DeleteJobKeepsInv(s.db, jobId);
    case _ => AlertEventKeepsInv(s, e);
  }

  lemma StepKeepsInv(s: State, e: Event)
    requires Inv(s)
    ensures Inv(Apply(s, e))
  {
    if e.Start? {
      StartKeepsInv(s, e);
    } else if e.Finish? {
      if e.ticket in s.inFlight {
        CommitKeepsInv(s.db, s.inFlight[e.ticket]);
      }
    } else if e.CreateWrites? {
      if e.ticket in s.creating {
        InsertRunKeepsInv(s.db, s.creating[e.ticket], e.now);
      }
    } else if !e.CreateChecks? {
      DbStepKeepsInv(s, e);
    }
  }

  /** Every reachable state satisfies the invariant: only the newest run of a job can be
      active, last_run_at is the finish of its newest terminal run, and a STUCK run is an
      undispatched manual one. */
  lemma {:induction false} EveryReachableState(events: seq<Event>)
    ensures Inv(After(events))
  {
    if events != [] {
      EveryReachableState(events[..|events| - 1]);
      StepKeepsInv(After(events[..|events| - 1]), events[|events| - 1]);
    }
  }

  /** Only a commit, an INSERT and a deletion touch the runs; an INSERT adds one PENDING run. */
  lemma QuietEventKeepsRuns(s: State, e: Event)
    requires !e.Finish? && !e.CreateWrites? && !e.JobDeleted?
    ensures Apply(s, e).db.runs == s.db.runs
  {
  }

  lemma CreationAddsPending(s: State, e: Event)
    requires Inv(s) && e.CreateWrites?
    ensures
      var runs, after := s.db.runs, Apply(s, e).db.runs;
      && (forall id | id in runs :: id in after && after[id] == runs[id])
      && (forall id | id in after && id !in runs :: id == s.db.nextRunId && after[id].status == PENDING)
  {
  }

  // ---------------------------------------------------------------- manual runs and WATCH jobs

  /** The INSERT of a manual run whose job has moved to WATCH since it was checked. */
  ghost predicate InsertsOnWatch(s: State, e: Event) {
    && e.CreateWrites? && e.ticket in s.creating
    && var c := s.creating[e.ticket];
    c.trigger == Manual && MayInsert(s.db, c) && s.db.jobs[c.jobId].mode == WATCH
  }

  lemma InsertOnSchedule(db: Store, c: Creation, now: int)
    requires References(db) && ManualOnSchedule(db) && MayInsert(db, c)
    ensures ManualOnSchedule(InsertRun(db, c, now).0) <==> (c.trigger == Manual ==> db.jobs[c.jobId].mode == SCHEDULE)
  {
    var after := InsertRun(db, c, now).0;
    assert after.runs[db.nextRunId] == NewRun(c, now);
  }

  lemma CommitKeepsManual(db: Store, req: Request)
    requires References(db) && ManualOnSchedule(db) && Wellformed(req)
    ensures ManualOnSchedule(Commit(db, req).0)
  {
    if Wins(db, req) {
      WrittenEvolves(db.runs[req.runId], req);
    }
  }

  /** A step keeps active manual runs on SCHEDULE jobs exactly when it is not such an INSERT:
      the job's mode must still be SCHEDULE when the INSERT commits. */
  lemma StepKeepsManual(s: State, e: Event)
    requires Inv(s) && ManualOnSchedule(s.db)
    ensures ManualOnSchedule(Apply(s, e).db) <==> !InsertsOnWatch(s, e)
  {
    match e
    case Finish(ticket) => if ticket in s.inFlight { CommitKeepsManual(s.db, s.inFlight[ticket]); }
    case CreateWrites(ticket, now) =>
      if ticket in s.creating && MayInsert(s.db, s.creating[ticket]) {
        InsertOnSchedule(s.db, s.creating[ticket], now);
      }
    case _ =>
  }

  ghost predicate ManualThroughout(events: seq<Event>) {
    forall n: nat | n <= |events| :: ManualOnSchedule(After(events[..n]).db)
  }

  ghost predicate NoInsertOnWatch(events: seq<Event>) {
    forall n: nat | n < |events| :: !InsertsOnWatch(After(events[..n]), events[n])
  }

  lemma {:induction false} ManualUpTo(events: seq<Event>, n: nat)
    requires n <= |events| && forall k: nat | k < n :: !InsertsOnWatch(After(events[..k]), events[k])
    ensures ManualOnSchedule(After(events[..n]).db)
  {
    if n > 0 {
      ManualUpTo(events, n - 1);
      assert events[..n][..n - 1] == events[..n - 1];
      EveryReachableState(events[..n - 1]);
      StepKeepsManual(After(events[..n - 1]), events[n - 1]);
    }
  }

  /** Over a whole history every active manual run belongs to a SCHEDULE job iff no manual
      run is inserted for a job that has moved to WATCH since its check. */
  lemma ManualIffNoInsertOnWatch(events: seq<Event>)
    ensures ManualThroughout(events) <==> NoInsertOnWatch(events)
  {
    if NoInsertOnWatch(events) {
      forall n: nat | n <= |events|
        ensures ManualOnSchedule(After(events[..n]).db)
      {
        ManualUpTo(events, n);
      }
    }
    if ManualThroughout(events) {
      forall n: nat | n < |events|
        ensures !InsertsOnWatch(After(events[..n]), events[n])
      {
        assert events[..n + 1][..n] == events[..n];
        assert ManualOnSchedule(After(events[..n]).db) && ManualOnSchedule(After(events[..n + 1]).db);
        EveryReachableState(events[..n]);
        StepKeepsManual(After(events[..n]), events[n]);
      }
    }
  }

  /** Every INSERT directly follows its own check. */
  ghost predicate AtomicCreation(events: seq<Event>) {
    forall n: nat | n < |events| && events[n].CreateWrites? && events[n].ticket in After(events[..n]).creating ::
      n > 0 && events[n - 1].CreateChecks? && events[n - 1].ticket == events[n].ticket
      && events[n].ticket !in After(events[..n - 1]).creating
  }

  lemma CheckThenInsert(s: State, check: Event, write: Event)
    requires check.CreateChecks? && write.CreateWrites? && check.ticket == write.ticket && check.ticket !in s.creating
    ensures !InsertsOnWatch(Apply(s, check), write)
  {
  }

  /** In particular with creation atomic. */
  lemma AtomicCreationKeepsManual(events: seq<Event>)
    requires AtomicCreation(events)
    ensures ManualThroughout(events)
  {
    forall n: nat | n < |events|
      ensures !InsertsOnWatch(After(events[..n]), events[n])
    {
      if events[n].CreateWrites? && events[n].ticket in After(events[..n]).creating {
        assert events[..n][..n - 1] == events[..n - 1];
        CheckThenInsert(After(events[..n - 1]), events[n - 1], events[n]);
      }
    }
    ManualIffNoInsertOnWatch(events);
  }

  lemma Extend(events: seq<Event>, e: Event)
    ensures After(events + [e]) == Apply(After(events), e)
  {
    assert (events + [e])[..|events|] == events;
  }

  /** Split at its await it does happen: a SCHEDULE job is checked, a PATCH moves it to
      WATCH, which no active run forbids yet, and then the manual run is inserted. */
  lemma SplitCreationBreaksIt()
    ensures exists events :: !ManualOnSchedule(After(events).db)
  {
    var es: seq<Event> := [JobCreated(true, SCHEDULE, None, 30)];
    assert es[..0] == [];
    var job := Job(true, SCHEDULE, None, 30, None);
    assert After(es) == State(Store(map[0 := job], map[], 1, 0, []), map[], map[]);
    Extend(es, CreateChecks(0, 0, Manual, 0));
    var checked := es + [CreateChecks(0, 0, Manual, 0)];
    assert After(checked).creating[0] == Creation(0, Manual, None) && After(checked).db == After(es).db;
    Extend(checked, JobConfigured(0, true, WATCH, None, 30));
    var moved := checked + [JobConfigured(0, true, WATCH, None, 30)];
    assert !HasActiveRun(After(checked).db, 0);
    assert After(moved).db.jobs[0].mode == WATCH && After(moved).db.runs == map[];
    Extend(moved, CreateWrites(0, 1));
    assert !HasActiveRun(After(moved).db, 0);
    assert After(moved + [CreateWrites(0, 1)]).db.runs[0] == NewRun(Creation(0, Manual, None), 1);
  }
}
