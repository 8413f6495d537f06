/** The severity of the two verification alerts along the histories of Verification. The alert
    helper returns an ACTIVE alert unchanged, so a later failure does not touch it. */
module VerificationAlerts {
  import opened Wrappers
  import opened Verification
  import Alerts

  // ---------------------------------------------------------------- on the alerts table

  /** An ACTIVE alert has one severity. */
  lemma OneSeverity(rows: seq<Alerts.Alert>, key: Alerts.Key, a: Alerts.Severity, b: Alerts.Severity)
    requires Alerts.Valid(rows) && Alerts.ActiveAs(rows, key, a) && Alerts.ActiveAs(rows, key, b)
    ensures a == b
  {
    var i: nat :| i < |rows| && rows[i].Matches(key) && rows[i].severity == a;
    var k: nat :| k < |rows| && rows[k].Matches(key) && rows[k].severity == b;
    Alerts.MatchIsUnique(rows, key, i, k);
  }

  /** The key's alert, if ACTIVE afterwards, was so before and has the severity it had. */
  ghost predicate OnlyKeeps(rows: seq<Alerts.Alert>, after: seq<Alerts.Alert>, key: Alerts.Key) {
    Alerts.HasActive(after, key) ==>
      && Alerts.HasActive(rows, key)
      && forall severity :: Alerts.ActiveAs(rows, key, severity) ==> Alerts.ActiveAs(after, key, severity)
  }

  lemma RaiseLeaves(rows: seq<Alerts.Alert>, raised: Alerts.Key, severity: Alerts.Severity, key: Alerts.Key)
    requires Alerts.Valid(rows)
    ensures
      var after := Alerts.Raise(rows, raised, severity);
      if raised == key && !Alerts.HasActive(rows, key) then Alerts.ActiveAs(after, key, severity)
      else OnlyKeeps(rows, after, key)
  {
    var after := Alerts.Raise(rows, raised, severity);
    Alerts.RaiseEffect(rows, raised, severity);
    if raised == key && !Alerts.HasActive(rows, key) {
      assert after[|rows|].Matches(key) && after[|rows|].severity == severity;
    } else {
      forall was: Alerts.Severity | Alerts.ActiveAs(rows, key, was)
        ensures Alerts.ActiveAs(after, key, was)
      {
        var i: nat :| i < |rows| && rows[i].Matches(key) && rows[i].severity == was;
        assert after[i] == rows[i];
      }
    }
  }

  /** Rows that are only taken out of ACTIVE. */
  lemma WeakenedOnlyKeeps(rows: seq<Alerts.Alert>, after: seq<Alerts.Alert>, key: Alerts.Key)
    requires Alerts.Valid(rows) && |after| == |rows|
    requires forall i: nat | i < |rows| :: after[i] == rows[i] || !after[i].Matches(key)
    ensures OnlyKeeps(rows, after, key)
  {
    if Alerts.HasActive(after, key) {
      var i: nat :| i < |after| && after[i].Matches(key);
      assert rows[i].Matches(key);
      forall was: Alerts.Severity | Alerts.ActiveAs(rows, key, was)
        ensures Alerts.ActiveAs(after, key, was)
      {
        var k: nat :| k < |rows| && rows[k].Matches(key) && rows[k].severity == was;
        Alerts.MatchIsUnique(rows, key, i, k);
      }
    }
  }

  lemma ResolveLeaves(rows: seq<Alerts.Alert>, resolved: Alerts.Key, key: Alerts.Key)
    requires Alerts.Valid(rows)
    ensures OnlyKeeps(rows, Alerts.Resolve(rows, resolved, None), key)
  {
    WeakenedOnlyKeeps(rows, Alerts.Resolve(rows, resolved, None), key);
  }

  lemma AdminLeaves(rows: seq<Alerts.Alert>, id: nat, action: Alerts.AdminAction, key: Alerts.Key)
    requires Alerts.Valid(rows)
    ensures OnlyKeeps(rows, Alerts.Admin(rows, id, action), key)
  {
    WeakenedOnlyKeeps(rows, Alerts.Admin(rows, id, action), key);
  }

  // ---------------------------------------------------------------- along a history

  datatype Ask = Ask(key: Alerts.Key, severity: Alerts.Severity)

  function Failure(key: Alerts.Key, status: VStatus): Option<Ask> {
    if status == OK then None else Some(Ask(key, SeverityOf(status)))
  }

  /** The alert that the event asks the helper to raise. */
  ghost function Asks(s: State, e: Event): Option<Ask> {
    match e
    case CopyReported(_, recordId, status, _) => if Terminal(status) then Failure(RecordKey(recordId), status) else None
    case Reports(x) =>
      if x in s.execs && s.execs[x].pc.Reporting? then Failure(JobKey(s.execs[x].jobId), s.execs[x].pc.status) else None
    case SweepsRow(k, id) =>
      if k in s.sweeps && id in s.sweeps[k].rest && id in s.db.runs && s.db.runs[id].status == RUNNING
      then Some(Ask(JobKey(s.db.runs[id].jobId), Alerts.Warning))
      else None
    case _ => None
  }

  lemma InsertKeepsAlerts(db: Db, run: VRun)
    ensures Insert(db, run).alerts == db.alerts
  {
  }

  /** The alerts after a step: raised, resolved, edited by an admin, or left alone. */
  lemma AlertsAfter(s: State, e: Event)
    ensures
      var rows, after := s.db.alerts, Apply(s, e).db.alerts;
      if Asks(s, e).Some? then after == Alerts.Raise(rows, Asks(s, e).value.key, Asks(s, e).value.severity)
      else
        || after == rows
        || (e.AlertByAdmin? && after == Alerts.Admin(rows, e.alertId, e.action))
        || (exists key :: after == Alerts.Resolve(rows, key, None))
  {
    match e
    case CopyReported(jobId, recordId, status, at) =>
      if Terminal(status) {
        InsertKeepsAlerts(s.db, VRun(jobId, status, Some(at), Some(at), None));
      }
    case _ =>
  }

  ghost predicate Inserting(s: State, e: Event, key: Alerts.Key) {
    Asks(s, e).Some? && Asks(s, e).value.key == key && !Alerts.HasActive(s.db.alerts, key)
  }

  lemma StepLeaves(s: State, e: Event, key: Alerts.Key)
    requires Alerts.Valid(s.db.alerts)
    ensures
      var rows, after := s.db.alerts, Apply(s, e).db.alerts;
      && Alerts.Valid(after)
      && if Inserting(s, e, key) then Alerts.ActiveAs(after, key, Asks(s, e).value.severity)
         else OnlyKeeps(rows, after, key)
  {
    var rows, after := s.db.alerts, Apply(s, e).db.alerts;
    AlertsAfter(s, e);
    if Asks(s, e).Some? {
      Alerts.RaiseEffect(rows, Asks(s, e).value.key, Asks(s, e).value.severity);
      RaiseLeaves(rows, Asks(s, e).value.key, Asks(s, e).value.severity, key);
    } else if after != rows {
      if e.AlertByAdmin? && after == Alerts.Admin(rows, e.alertId, e.action) {
        Alerts.AdminEffect(rows, e.alertId, e.action);
        AdminLeaves(rows, e.alertId, e.action, key);
      } else {
        var resolved :| after == Alerts.Resolve(rows, resolved, None);
        Alerts.ResolveEffect(rows, resolved, None);
        ResolveLeaves(rows, resolved, key);
      }
    }
  }

  lemma {:induction false} AlertsStayValid(events: seq<Event>)
    ensures Alerts.Valid(After(events).db.alerts)
  {
    if events != [] {
      AlertsStayValid(events[..|events| - 1]);
      StepLeaves(After(events[..|events| - 1]), events[|events| - 1], JobKey(0));
    }
  }

  lemma LastStepLeaves(events: seq<Event>, key: Alerts.Key)
    requires events != []
    ensures
      var s, e := After(events[..|events| - 1]), events[|events| - 1];
      if Inserting(s, e, key) then Alerts.ActiveAs(After(events).db.alerts, key, Asks(s, e).value.severity)
      else OnlyKeeps(s.db.alerts, After(events).db.alerts, key)
  {
    AlertsStayValid(events[..|events| - 1]);
    StepLeaves(After(events[..|events| - 1]), events[|events| - 1], key);
  }

  /** Event k finds no ACTIVE alert of the key and inserts one with this severity. */
  ghost predicate InsertsAt(events: seq<Event>, k: nat, key: Alerts.Key, severity: Alerts.Severity) {
    && k < |events| && Asks(After(events[..k]), events[k]) == Some(Ask(key, severity))
    && !Alerts.HasActive(After(events[..k]).db.alerts, key)
  }

  ghost predicate ActiveAt(events: seq<Event>, n: nat, key: Alerts.Key) {
    n <= |events| && Alerts.HasActive(After(events[..n]).db.alerts, key)
  }

  ghost predicate ActiveSince(events: seq<Event>, k: nat, key: Alerts.Key) {
    forall n: nat | k < n <= |events| :: ActiveAt(events, n, key)
  }

  /** Over every history: an ACTIVE verification alert has the severity that the report or sweep
      inserting it asked for, and has been ACTIVE ever since. */
  lemma {:induction false} SeverityIsOfTheInserter(events: seq<Event>, key: Alerts.Key)
      returns (k: nat, severity: Alerts.Severity)
    requires Alerts.HasActive(After(events).db.alerts, key)
    ensures InsertsAt(events, k, key, severity) && Alerts.ActiveAs(After(events).db.alerts, key, severity)
    ensures ActiveSince(events, k, key)
  {
    var m := |events| - 1;
    var s := After(events[..m]);
    LastStepLeaves(events, key);
    if Inserting(s, events[m], key) {
      k, severity := m, Asks(s, events[m]).value.severity;
      assert events[..|events|] == events;
    } else {
      k, severity := SeverityIsOfTheInserter(events[..m], key);
      InsertsInPrefix(events, m, k, key, severity);
      ActiveNow(events, key);
      StillActiveSince(events, k, key);
    }
  }

  lemma StillActiveSince(events: seq<Event>, k: nat, key: Alerts.Key)
    requires events != [] && ActiveSince(events[..|events| - 1], k, key) && ActiveAt(events, |events|, key)
    ensures ActiveSince(events, k, key)
  {
    var m := |events| - 1;
    forall n: nat | k < n <= |events|
      ensures ActiveAt(events, n, key)
    {
      if n <= m {
        assert ActiveAt(events[..m], n, key);
        ActiveInPrefix(events, m, n, key);
      }
    }
  }

  lemma ActiveNow(events: seq<Event>, key: Alerts.Key)
    requires Alerts.HasActive(After(events).db.alerts, key)
    ensures ActiveAt(events, |events|, key)
  {
    assert events[..|events|] == events;
  }

  lemma ActiveInPrefix(events: seq<Event>, m: nat, n: nat, key: Alerts.Key)
    requires n <= m <= |events| && ActiveAt(events[..m], n, key)
    ensures ActiveAt(events, n, key)
  {
    assert events[..m][..n] == events[..n];
  }

  lemma InsertsInPrefix(events: seq<Event>, m: nat, k: nat, key: Alerts.Key, severity: Alerts.Severity)
    requires m <= |events| && InsertsAt(events[..m], k, key, severity)
    ensures InsertsAt(events, k, key, severity)
  {
    assert events[..m][..k] == events[..k];
  }

  /** So a failing report, or a sweep, leaves the severity it asks for iff no alert was ACTIVE or
      the ACTIVE one already had it. */
  lemma AskedSeverityIff(events: seq<Event>, k: nat, key: Alerts.Key, severity: Alerts.Severity)
    requires k < |events| && Asks(After(events[..k]), events[k]) == Some(Ask(key, severity))
    ensures
      var rows, after := After(events[..k]).db.alerts, After(events[..k + 1]).db.alerts;
      && Alerts.HasActive(after, key)
      && (Alerts.ActiveAs(after, key, severity) <==>
            !Alerts.HasActive(rows, key) || Alerts.ActiveAs(rows, key, severity))
  {
    var s := After(events[..k]);
    NextState(events, k);
    AlertsStayValid(events[..k]);
    StepLeaves(s, events[k], key);
    AlertsAfter(s, events[k]);
    Alerts.RaiseEffect(s.db.alerts, key, severity);
  }

  /** The report of a run an executor has ended: BACKUP_VERIFICATION_FAILED of its job is ACTIVE
      afterwards iff the run did not come out OK, and no other alert changes. */
  lemma ExecutorReports(events: seq<Event>, k: nat, x: nat)
    requires k < |events| && events[k] == Reports(x)
    requires x in After(events[..k]).execs && After(events[..k]).execs[x].pc.Reporting?
    ensures
      var exec := After(events[..k]).execs[x];
      var runs := After(events[..k + 1]).db.runs;
      && exec.runId in runs && runs[exec.runId].jobId == exec.jobId
      && Alerts.OnlyAlert(After(events[..k]).db.alerts,
                          Alerts.Key(Alerts.BackupJob, exec.jobId, Alerts.BackupVerificationFailed),
                          runs[exec.runId].status != OK, AlertLevel(runs[exec.runId].status),
                          After(events[..k + 1]).db.alerts)
  {
    var s := After(events[..k]);
    NextState(events, k);
    AlertsStayValid(events[..k]);
    EveryReachableState(events[..k]);
    assert ExecOk(s.db, s.execs[x]);
    var key := Alerts.Key(Alerts.BackupJob, s.execs[x].jobId, Alerts.BackupVerificationFailed);
    ReportMeans(s.db.alerts, key, s.execs[x].pc.status);
  }

  /** The report of a copy: FTP_COPY_INTEGRITY_FAILED of its record, likewise. */
  lemma CopyReports(events: seq<Event>, k: nat)
    requires k < |events| && events[k].CopyReported? && Terminal(events[k].status)
    ensures Alerts.OnlyAlert(After(events[..k]).db.alerts,
                             Alerts.Key(Alerts.BackupRecord, events[k].recordId, Alerts.FtpCopyIntegrityFailed),
                             events[k].status != OK, AlertLevel(events[k].status),
                             After(events[..k + 1]).db.alerts)
  {
    var s, e := After(events[..k]), events[k];
    NextState(events, k);
    AlertsStayValid(events[..k]);
    InsertKeepsAlerts(s.db, VRun(e.jobId, e.status, Some(e.at), Some(e.at), None));
    ReportMeans(s.db.alerts, Alerts.Key(Alerts.BackupRecord, e.recordId, Alerts.FtpCopyIntegrityFailed), e.status);
  }

  // ---------------------------------------------------------------- a later failure leaves a warning

  /** Job 7's first run turns RUNNING and is ended by the stuck sweep, which warns. */
  const SWEPT: seq<Event> := READY_TO_RUN + [GoesRunning(0)] + [SweepSelects(0, 500, 1000)] + [SweepsRow(0, 0)]

  /** Its second run finds no backup record, which is critical. */
  const MISSING_NEXT: seq<Event> :=
    SWEPT + [Requested(7)] + [ExecStarts(1, 1, 2000)] + [Snapshots(1, None, false)] + [Finishes(1)]

  ghost predicate Warned(s: State) {
    && s.db.nextId == 1 && s.db.runs.Keys == {0} && Terminal(s.db.runs[0].status) && s.execs.Keys == {0}
    && Alerts.Valid(s.db.alerts) && Alerts.ActiveAs(s.db.alerts, JobKey(7), Alerts.Warning)
  }

  lemma SweptIsWarned()
    ensures Warned(After(SWEPT))
  {
    ReadyToRun();
    var running := READY_TO_RUN + [GoesRunning(0)];
    Extend(READY_TO_RUN, GoesRunning(0));
    Extend(running, SweepSelects(0, 500, 1000));
    Extend(running + [SweepSelects(0, 500, 1000)], SweepsRow(0, 0));
    SweepWarns(After(READY_TO_RUN));
  }

  lemma SweepWarns(s: State)
    requires s.db == Db(map[0 := VRun(7, PENDING, None, None, None)], 1, [])
    requires s.execs == map[0 := Exec(0, 7, 100, HasRecord)] && s.sweeps == map[]
    ensures Warned(Apply(Apply(Apply(s, GoesRunning(0)), SweepSelects(0, 500, 1000)), SweepsRow(0, 0)))
  {
    SweepSelectsIt(s);
    StepLeaves(Apply(Apply(s, GoesRunning(0)), SweepSelects(0, 500, 1000)), SweepsRow(0, 0), JobKey(7));
  }

  lemma SweepSelectsIt(s: State)
    requires s.db == Db(map[0 := VRun(7, PENDING, None, None, None)], 1, [])
    requires s.execs == map[0 := Exec(0, 7, 100, HasRecord)] && s.sweeps == map[]
    ensures
      var selected := Apply(Apply(s, GoesRunning(0)), SweepSelects(0, 500, 1000));
      && selected.db == Db(map[0 := VRun(7, RUNNING, Some(100), None, None)], 1, []) && selected.execs.Keys == {0}
      && 0 in selected.sweeps && 0 in selected.sweeps[0].rest
  {
    var running := Apply(s, GoesRunning(0));
    assert running.db.runs == map[0 := VRun(7, RUNNING, Some(100), None, None)];
    assert Stuck(running.db.runs[0], 500);
  }

  lemma SecondRunIsMissing(s: State)
    requires Warned(s)
    ensures
      var started := Apply(Apply(s, Requested(7)), ExecStarts(1, 1, 2000));
      var ended := Apply(Apply(started, Snapshots(1, None, false)), Finishes(1));
      && Asks(ended, Reports(1)) == Some(Ask(JobKey(7), Alerts.Critical))
      && ended.db.alerts == s.db.alerts
  {
    SecondRunStarts(s);
    var started := Apply(Apply(s, Requested(7)), ExecStarts(1, 1, 2000));
    var read := Apply(started, Snapshots(1, None, false));
    assert read.execs[1] == Exec(1, 7, 2000, Classified(MISSING)) && read.db.runs[1].status == PENDING;
  }

  lemma SecondRunStarts(s: State)
    requires Warned(s)
    ensures
      var started := Apply(Apply(s, Requested(7)), ExecStarts(1, 1, 2000));
      && 1 in started.db.runs && started.db.runs[1].status == PENDING && started.db.alerts == s.db.alerts
      && 1 in started.execs && started.execs[1] == Exec(1, 7, 2000, Fetched)
  {
    assert !HasActive(s.db, 7);
    assert Apply(s, Requested(7)).db.runs == s.db.runs[1 := VRun(7, PENDING, None, None, None)];
  }

  lemma SecondRunEnds()
    ensures Asks(After(MISSING_NEXT), Reports(1)) == Some(Ask(JobKey(7), Alerts.Critical))
    ensures After(MISSING_NEXT).db.alerts == After(SWEPT).db.alerts
  {
    SweptIsWarned();
    var requested := SWEPT + [Requested(7)];
    Extend(SWEPT, Requested(7));
    var started := requested + [ExecStarts(1, 1, 2000)];
    Extend(requested, ExecStarts(1, 1, 2000));
    var read := started + [Snapshots(1, None, false)];
    Extend(started, Snapshots(1, None, false));
    Extend(read, Finishes(1));
    SecondRunIsMissing(After(SWEPT));
  }

  /** The critical report asks for CRITICAL, and the alert stays a WARNING. */
  lemma LaterFailureKeepsWarning()
    ensures Asks(After(MISSING_NEXT), Reports(1)) == Some(Ask(JobKey(7), Alerts.Critical))
    ensures Alerts.ActiveAs(After(MISSING_NEXT + [Reports(1)]).db.alerts, JobKey(7), Alerts.Warning)
    ensures !Alerts.ActiveAs(After(MISSING_NEXT + [Reports(1)]).db.alerts, JobKey(7), Alerts.Critical)
  {
    SecondRunEnds();
    SweptIsWarned();
    var s := After(MISSING_NEXT);
    Extend(MISSING_NEXT, Reports(1));
    assert Alerts.HasActive(s.db.alerts, JobKey(7));
    AlertsAfter(s, Reports(1));
    assert Apply(s, Reports(1)).db.alerts == s.db.alerts;
    if Alerts.ActiveAs(s.db.alerts, JobKey(7), Alerts.Critical) {
      OneSeverity(s.db.alerts, JobKey(7), Alerts.Critical, Alerts.Warning);
    }
  }
}
