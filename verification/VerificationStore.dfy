/** The executor, the best-effort marker, the stuck sweep and the copy-integrity report
    as they act on the stored rows. Each stage of the executor is one commit of the
    interleaving in Verification. */
module VerificationStore {
  import opened Wrappers
  import opened Verification
  import Alerts
  import AlertTable

  datatype AgentCopyStatus = CopyOk | Mismatch | MissingSidecar | FileUnreadable

  /** Building the connection parameters: either failure is an exception. */
  datatype Setup = InstanceMissing | DecryptFails | Ready

  /** What an execution meets outside the runs and alerts. */
  datatype Inputs = Inputs(
    jobFound: bool, instance: Option<nat>, hasRecord: bool, setup: Setup, evidence: Evidence, markerRaises: bool)

  function MapAgentCopyStatus(status: AgentCopyStatus): (s: VStatus)
    ensures Terminal(s)
  {
    match status
    case CopyOk => OK
    case Mismatch => CORRUPT
    case MissingSidecar => MISSING
    case FileUnreadable => ERROR
  }

  /** The terminal run that stands for a copy report. */
  predicate Recorded(jobId: nat, status: AgentCopyStatus, checkedAt: int, run: VRun) {
    && run.jobId == jobId && run.startedAt == Some(checkedAt) && run.finishedAt == Some(checkedAt)
    && run.instance == None
    && (run.status == OK <==> status == CopyOk)
    && (run.status == CORRUPT <==> status == Mismatch)
    && (run.status == MISSING <==> status == MissingSidecar)
    && (run.status == ERROR <==> status == FileUnreadable)
  }

  /** What the sweep leaves of a run it visits. */
  function Ended(run: VRun, now: int): VRun {
    if run.status == RUNNING then run.(status := ERROR, finishedAt := Some(now)) else run
  }

  ghost predicate SweptKey(before: Db, rows: seq<nat>, key: Alerts.Key) {
    exists i: nat :: i < |rows| && rows[i] in before.runs && before.runs[rows[i]].status == RUNNING
                && key == JobKey(before.runs[rows[i]].jobId)
  }

  /** The sweep of `before` over these rows: the ones still RUNNING end with ERROR, and
      exactly their jobs gain an alert. */
  ghost predicate SweptTo(before: Db, rows: seq<nat>, now: int, after: Db) {
    && after.nextId == before.nextId && after.runs.Keys == before.runs.Keys
    && (forall id | id in before.runs ::
          after.runs[id] == if id in rows then Ended(before.runs[id], now) else before.runs[id])
    && before.alerts <= after.alerts && Alerts.Valid(after.alerts)
    && forall key ::
       Alerts.HasActive(after.alerts, key) <==> Alerts.HasActive(before.alerts, key) || SweptKey(before, rows, key)
  }

  lemma NothingSwept(before: Db, now: int)
    requires Alerts.Valid(before.alerts)
    ensures SweptTo(before, [], now, before)
  {
  }

  lemma SweepNext(before: Db, rows: seq<nat>, id: nat, now: int, view: Db)
    requires SweptTo(before, rows, now, view)
    ensures SweptTo(before, rows + [id], now, SweepRow(view, id, now))
  {
    var after := SweepRow(view, id, now);
    assert forall k :: k in rows + [id] <==> k in rows || k == id;
    if id in view.runs && view.runs[id].status == RUNNING {
      Alerts.RaiseEffect(view.alerts, JobKey(view.runs[id].jobId), Alerts.Warning);
    }
    forall key
      ensures Alerts.HasActive(after.alerts, key) <==>
              Alerts.HasActive(before.alerts, key) || SweptKey(before, rows + [id], key)
    {
      SweptKeyNext(before, rows, id, key);
    }
  }

  lemma SweptKeyNext(before: Db, rows: seq<nat>, id: nat, key: Alerts.Key)
    ensures SweptKey(before, rows + [id], key) <==>
            SweptKey(before, rows, key) ||
            (id in before.runs && before.runs[id].status == RUNNING && key == JobKey(before.runs[id].jobId))
  {
    var more := rows + [id];
    if SweptKey(before, rows, key) {
      var i: nat :| i < |rows| && rows[i] in before.runs && before.runs[rows[i]].status == RUNNING
                    && key == JobKey(before.runs[rows[i]].jobId);
      assert more[i] == rows[i];
    }
    assert more[|rows|] == id;
  }

  /** The status that the evidence gives. */
  predicate Gives(evidence: Evidence, status: VStatus) {
    match evidence
    case Raised => status == ERROR
    case Evidence(None, _) => status == MISSING
    case Evidence(Some(damaged), error) =>
      if damaged then status == CORRUPT
      else if error == None then status == OK
      else if error == Some(3201) || error == Some(5133) then status == ERROR
      else status == CORRUPT
  }

  lemma ClassifyGives(evidence: Evidence)
    ensures Gives(evidence, Classify(evidence))
  {
    ClassifyMeans(evidence);
  }

  /** A run that comes out with this status is reported on its job. */
  ghost predicate CameOut(before: Db, id: nat, run: VRun, after: Db) {
    && after.(alerts := before.alerts) == before.(runs := before.runs[id := run])
    && Alerts.OnlyAlert(before.alerts, Alerts.Key(Alerts.BackupJob, run.jobId, Alerts.BackupVerificationFailed),
                        run.status != OK, AlertLevel(run.status), after.alerts)
  }

  /** What an uninterrupted execution of a stored run leaves. */
  ghost predicate Executed(before: Db, id: nat, now: int, inputs: Inputs, after: Db)
    requires id in before.runs
  {
    var run := before.runs[id];
    var snapshot := run.(instance := inputs.instance);
    var ended := run.status != PENDING && run.status != RUNNING;
    if !inputs.jobFound then
      if inputs.markerRaises || ended then after == before
      else after == before.(runs := before.runs[id := run.(status := ERROR, finishedAt := Some(now))])
    else if ended || (inputs.hasRecord && run.status == RUNNING) then
      after == before.(runs := before.runs[id := snapshot])
    else if !inputs.hasRecord then
      CameOut(before, id, snapshot.(status := MISSING, finishedAt := Some(now)), after)
    else if inputs.setup != Ready then
      var status := if inputs.markerRaises then RUNNING else ERROR;
      var finished := if inputs.markerRaises then run.finishedAt else Some(now);
      after == before.(runs := before.runs[id :=
                 snapshot.(status := status, startedAt := Some(now), finishedAt := finished)])
    else
      exists status ::
        Gives(inputs.evidence, status)
        && CameOut(before, id, snapshot.(status := status, startedAt := Some(now), finishedAt := Some(now)), after)
  }

  /** The state an uninterrupted execution leaves, as the composition of its commits. */
  ghost function ExecutionOf(before: Db, id: nat, now: int, inputs: Inputs): Db
    requires id in before.runs
  {
    var run := before.runs[id].(instance := inputs.instance);
    var db := SetRun(before, id, run);
    var status := if inputs.hasRecord then Classify(inputs.evidence) else MISSING;
    if !inputs.jobFound
    then (if inputs.markerRaises then before else CasTerminal(before, id, ERROR, now))
    else if Terminal(run.status) || (inputs.hasRecord && run.status == RUNNING) then db
    else
      var started := if inputs.hasRecord then run.(status := RUNNING, startedAt := Some(now)) else run;
      if inputs.hasRecord && inputs.setup != Ready then
        SetRun(db, id, if inputs.markerRaises then started else started.(status := ERROR, finishedAt := Some(now)))
      else SetRun(db, id, started.(status := status, finishedAt := Some(now)))
           .(alerts := Report(before.alerts, JobKey(run.jobId), status))
  }

  lemma ExecutionMeans(before: Db, id: nat, now: int, inputs: Inputs)
    requires id in before.runs && Alerts.Valid(before.alerts)
    ensures Executed(before, id, now, inputs, ExecutionOf(before, id, now, inputs))
  {
    ClassifyGives(inputs.evidence);
    var key := Alerts.Key(Alerts.BackupJob, before.runs[id].jobId, Alerts.BackupVerificationFailed);
    ReportMeans(before.alerts, key, if inputs.hasRecord then Classify(inputs.evidence) else MISSING);
  }

  class Store {
    var runs: map<nat, VRun>
    var nextId: nat
    const alerts: AlertTable.Table

    constructor ()
      ensures fresh(alerts) && View() == INITIAL.db
    {
      runs, nextId := map[], 0;
      alerts := new AlertTable.Table();
    }

    function View(): Db
      reads this, alerts
    {
      Db(runs, nextId, alerts.rows)
    }

    /** None: IntegrityError from the partial unique index. */
    method CreatePendingVerificationRun(jobId: nat) returns (id: Option<nat>)
      modifies this
      ensures View() == Insert(old(View()), VRun(jobId, PENDING, None, None, None))
      ensures id.None? <==> old(HasActive(View(), jobId))
      ensures id.Some? ==> id.value == old(nextId) && nextId == old(nextId) + 1
                           && runs == old(runs)[id.value := VRun(jobId, PENDING, None, None, None)]
      ensures id.None? ==> runs == old(runs) && nextId == old(nextId)
    {
      if exists k :: k in runs && runs[k].jobId == jobId && !Terminal(runs[k].status) {
        return None;
      }
      runs := runs[nextId := VRun(jobId, PENDING, None, None, None)];
      nextId := nextId + 1;
      return Some(nextId - 1);
    }

    method CasToRunning(id: nat, now: int) returns (rowcount: nat)
      modifies this`runs
      ensures View() == CasRunning(old(View()), id, now)
      ensures rowcount == if RunningCasMatches(old(View()), id) then 1 else 0
    {
      if id !in runs || runs[id].status != PENDING {
        return 0;
      }
      runs := runs[id := runs[id].(status := RUNNING, startedAt := Some(now))];
      return 1;
    }

    method CasToTerminal(id: nat, status: VStatus, now: int) returns (rowcount: nat)
      modifies this`runs
      ensures View() == CasTerminal(old(View()), id, status, now)
      ensures rowcount == if TerminalCasMatches(old(View()), id) then 1 else 0
    {
      if id !in runs || (runs[id].status != RUNNING && runs[id].status != PENDING) {
        return 0;
      }
      runs := runs[id := runs[id].(status := status, finishedAt := Some(now))];
      return 1;
    }

    /** The marker's own session: None stands for an exception, which changes nothing. */
    method UpdateToError(id: nat, now: int, raises: bool) returns (rowcount: Option<nat>)
      modifies this`runs
      ensures rowcount.None? <==> raises
      ensures View() == if raises then old(View()) else CasTerminal(old(View()), id, ERROR, now)
    {
      if raises {
        return None;
      }
      var matched := CasToTerminal(id, ERROR, now);
      return Some(matched);
    }

    /** No exception leaves it, and unless its session raises the run is terminal afterwards. */
    method MarkRunErrorBestEffort(id: nat, now: int, raises: bool) returns (escaped: bool)
      modifies this`runs
      ensures !escaped
      ensures View() == if raises then old(View()) else CasTerminal(old(View()), id, ERROR, now)
      ensures !raises && id in runs ==> Terminal(runs[id].status)
      ensures runs ==
                if !raises && id in old(runs) && (old(runs)[id].status == PENDING || old(runs)[id].status == RUNNING)
                then old(runs)[id := old(runs)[id].(status := ERROR, finishedAt := Some(now))]
                else old(runs)
    {
      escaped := false;
      var rowcount := UpdateToError(id, now, raises);
      if rowcount.None? {
        return false;   // caught and logged
      }
    }

    method RaiseOrResolve(key: Alerts.Key, status: VStatus)
      requires Alerts.Valid(alerts.rows)
      modifies alerts
      ensures View() == old(View()).(alerts := Report(old(View()).alerts, key, status))
      ensures Alerts.OnlyAlert(old(alerts.rows), key, status != OK, AlertLevel(status), alerts.rows)
    {
      ReportMeans(alerts.rows, key, status);
      if status != OK {
        var severity := if status == CORRUPT || status == MISSING then Alerts.Critical else Alerts.Warning;
        var _ := alerts.RaiseAlertIfAbsent(key, severity);
      } else {
        var _ := alerts.ResolveActiveAlert(key, None);
      }
    }

    /** The except / if / elif / else chain after the blocking work. */
    method ClassifyEvidence(evidence: Evidence) returns (status: VStatus)
      ensures status == Classify(evidence)
    {
      match evidence
      case Raised => return ERROR;
      case Evidence(msdbRow, verifyError) =>
        if msdbRow == None {
          return MISSING;
        }
        if msdbRow.value {
          return CORRUPT;
        }
        if verifyError.Some? {
          if verifyError.value == 3201 || verifyError.value == 5133 {
            return ERROR;
          }
          return CORRUPT;
        }
        return OK;
    }

    /** The part with a backup record. None: the RUNNING CAS was lost, or the instance or its
        credentials failed it and the marker has been tried. */
    method VerifyRecord(id: nat, now: int, inputs: Inputs) returns (status: Option<VStatus>)
      requires id in runs
      modifies this`runs
      ensures status.Some? <==> old(runs)[id].status == PENDING && inputs.setup == Ready
      ensures status.Some? ==> status.value == Classify(inputs.evidence) && Gives(inputs.evidence, status.value)
      ensures
        var started := old(runs)[id].(status := RUNNING, startedAt := Some(now));
        runs ==
          if old(runs)[id].status != PENDING then old(runs)
          else if inputs.setup == Ready || inputs.markerRaises then old(runs)[id := started]
          else old(runs)[id := started.(status := ERROR, finishedAt := Some(now))]
    {
      ClassifyGives(inputs.evidence);
      var casRunning := CasToRunning(id, now);
      if casRunning == 0 {
        return None;
      }
      if inputs.setup == InstanceMissing || inputs.setup == DecryptFails {
        var _ := MarkRunErrorBestEffort(id, now, inputs.markerRaises);
        return None;
      }
      var classified := ClassifyEvidence(inputs.evidence);
      return Some(classified);
    }

    /** A whole execution that nothing interrupts. A run that was PENDING ends with the
        classified status, or with ERROR and no alert when its job, its instance or its
        credentials fail it (it stays RUNNING if the marker fails as well); without a backup
        record even a RUNNING one ends, as MISSING; anything else only takes the instance
        snapshot. */
    method ExecuteVerificationRun(id: nat, now: int, inputs: Inputs) returns (found: bool)
      requires Alerts.Valid(alerts.rows)
      modifies this`runs, alerts
      ensures found <==> id in old(runs)
      ensures !found ==> View() == old(View())
      ensures found ==> View() == ExecutionOf(old(View()), id, now, inputs)
      ensures found ==> Executed(old(View()), id, now, inputs, View())
    {
      if id in runs {
        ExecutionMeans(View(), id, now, inputs);
      }
      found := ExecuteStages(id, now, inputs);
    }

    /** Its stages, one commit each. */
    method ExecuteStages(id: nat, now: int, inputs: Inputs) returns (found: bool)
      requires Alerts.Valid(alerts.rows)
      modifies this`runs, alerts
      ensures found <==> id in old(runs)
      ensures !found ==> View() == old(View())
      ensures found ==> View() == ExecutionOf(old(View()), id, now, inputs)
    {
      if id !in runs {
        return false;
      }
      found := true;
      if !inputs.jobFound {
        var _ := MarkRunErrorBestEffort(id, now, inputs.markerRaises);
        return;
      }
      runs := runs[id := runs[id].(instance := inputs.instance)];
      var jobId := runs[id].jobId;
      var status := MISSING;
      if inputs.hasRecord {
        var verified := VerifyRecord(id, now, inputs);
        if verified.None? {
          return;
        }
        status := verified.value;
      }
      var terminal := CasToTerminal(id, status, now);
      if terminal == 0 {
        return;
      }
      RaiseOrResolve(JobKey(jobId), status);
    }

    /** One row of the sweep: whether an alert was newly raised. */
    method EndStuckRun(id: nat, now: int) returns (newAlert: bool)
      requires Alerts.Valid(alerts.rows)
      modifies this`runs, alerts
      ensures View() == SweepRow(old(View()), id, now)
      ensures |alerts.rows| == |old(alerts.rows)| + (if newAlert then 1 else 0)
    {
      if id !in runs || runs[id].status != RUNNING {
        return false;
      }
      runs := runs[id := runs[id].(status := ERROR, finishedAt := Some(now))];
      var key := JobKey(runs[id].jobId);
      var alreadyActive := alerts.GetActiveAlert(key);
      var raised := alerts.RaiseAlertIfAbsent(key, Alerts.Warning);
      return raised.Some? && alreadyActive.NoRow?;
    }

    /** The rows of an earlier SELECT, visited without interruption from here on: every
        selected run that is still RUNNING ends, no other run is touched, and the
        returned count is the number of alerts newly raised. If the rows are what the
        SELECT gives now, no RUNNING run older than the cutoff is left. */
    method CheckStuckVerifications(rows: seq<nat>, cutoff: int, now: int) returns (raisedCount: nat)
      requires Alerts.Valid(alerts.rows)
      modifies this`runs, alerts
      ensures SweptTo(old(View()), rows, now, View())
      ensures raisedCount == |alerts.rows| - |old(alerts.rows)|
      ensures (forall id | id in old(runs) && Stuck(old(runs)[id], cutoff) :: id in rows) ==>
                forall id | id in runs && runs[id].status == RUNNING && runs[id].startedAt.Some? ::
                  runs[id].startedAt.value >= cutoff
    {
      ghost var before := View();
      raisedCount := 0;
      NothingSwept(before, now);
      assert rows[..0] == [];
      for i := 0 to |rows|
        invariant SweptTo(before, rows[..i], now, View())
        invariant raisedCount == |alerts.rows| - |before.alerts|
      {
        SweepNext(before, rows[..i], rows[i], now, View());
        assert rows[..i + 1] == rows[..i] + [rows[i]];
        var raised := EndStuckRun(rows[i], now);
        raisedCount := raisedCount + (if raised then 1 else 0);
      }
      assert rows[..|rows|] == rows;
    }

    method RecordCopyVerificationResult(jobId: nat, recordId: nat, status: AgentCopyStatus, checkedAt: int)
      requires Alerts.Valid(alerts.rows)
      modifies this, alerts
      ensures
        var mapped := MapAgentCopyStatus(status);
        var db := Insert(old(View()), VRun(jobId, mapped, Some(checkedAt), Some(checkedAt), None));
        View() == db.(alerts := Report(old(alerts.rows), RecordKey(recordId), mapped))
      ensures old(nextId) in runs && nextId == old(nextId) + 1
      ensures exists run: VRun ::
                && Recorded(jobId, status, checkedAt, run) && runs == old(runs)[old(nextId) := run]
                && Alerts.OnlyAlert(old(alerts.rows),
                                    Alerts.Key(Alerts.BackupRecord, recordId, Alerts.FtpCopyIntegrityFailed),
                                    run.status != OK, AlertLevel(run.status), alerts.rows)
    {
      var mapped := MapAgentCopyStatus(status);
      runs := runs[nextId := VRun(jobId, mapped, Some(checkedAt), Some(checkedAt), None)];
      nextId := nextId + 1;
      assert Recorded(jobId, status, checkedAt, runs[old(nextId)]);
      RaiseOrResolve(RecordKey(recordId), mapped);
    }
  }
}
