/** Verification runs: the executor, its best-effort error marker, the stuck sweep
    (app/workers/backup_verification.py) and copy-integrity reports
    (app/workers/copy_verification.py), interleaved at every commit. */
module Verification {
  import opened Wrappers
  import Alerts

  datatype VStatus = PENDING | RUNNING | OK | CORRUPT | MISSING | ERROR

  predicate Terminal(s: VStatus) { s != PENDING && s != RUNNING }

  /** `instance` is the denormalized sql_instance_id snapshot. */
  datatype VRun = VRun(
    jobId: nat, status: VStatus, startedAt: Option<int>, finishedAt: Option<int>, instance: Option<nat>)

  datatype Db = Db(runs: map<nat, VRun>, nextId: nat, alerts: seq<Alerts.Alert>)

  // ---------------------------------------------------------------- the committed writes

  ghost predicate HasActive(db: Db, jobId: nat) {
    exists id :: id in db.runs && db.runs[id].jobId == jobId && !Terminal(db.runs[id].status)
  }

  /** INSERT of a run; the partial unique index refuses a second active one of the job. */
  ghost function Insert(db: Db, run: VRun): Db {
    if !Terminal(run.status) && HasActive(db, run.jobId) then db
    else db.(runs := db.runs[db.nextId := run], nextId := db.nextId + 1)
  }

  function SetRun(db: Db, id: nat, run: VRun): Db { db.(runs := db.runs[id := run]) }

  predicate RunningCasMatches(db: Db, id: nat) { id in db.runs && db.runs[id].status == PENDING }

  function CasRunning(db: Db, id: nat, now: int): Db {
    if RunningCasMatches(db, id) then SetRun(db, id, db.runs[id].(status := RUNNING, startedAt := Some(now))) else db
  }

  predicate TerminalCasMatches(db: Db, id: nat) { id in db.runs && !Terminal(db.runs[id].status) }

  function CasTerminal(db: Db, id: nat, status: VStatus, now: int): Db {
    if TerminalCasMatches(db, id) then SetRun(db, id, db.runs[id].(status := status, finishedAt := Some(now))) else db
  }

  function JobKey(jobId: nat): Alerts.Key { Alerts.Key(Alerts.BackupJob, jobId, Alerts.BackupVerificationFailed) }

  function RecordKey(recordId: nat): Alerts.Key {
    Alerts.Key(Alerts.BackupRecord, recordId, Alerts.FtpCopyIntegrityFailed)
  }

  function SeverityOf(s: VStatus): Alerts.Severity {
    if s == CORRUPT || s == MISSING then Alerts.Critical else Alerts.Warning
  }

  /** Raised for anything but OK, resolved for OK; one alert per job. */
  ghost function Report(alerts: seq<Alerts.Alert>, key: Alerts.Key, s: VStatus): seq<Alerts.Alert> {
    if s != OK then Alerts.Raise(alerts, key, SeverityOf(s)) else Alerts.Resolve(alerts, key, None)
  }

  predicate Stuck(run: VRun, cutoff: int) {
    run.status == RUNNING && run.startedAt.Some? && run.startedAt.value < cutoff
  }

  /** One row of the stuck sweep: CAS and alert in one transaction. */
  ghost function SweepRow(db: Db, id: nat, now: int): Db {
    if id in db.runs && db.runs[id].status == RUNNING then
      SetRun(db, id, db.runs[id].(status := ERROR, finishedAt := Some(now)))
        .(alerts := Alerts.Raise(db.alerts, JobKey(db.runs[id].jobId), Alerts.Warning))
    else db
  }

  // ---------------------------------------------------------------- classification

  /** What the blocking SQL work gives: it raised, or the msdb row and the outcome of
      RESTORE VERIFYONLY (None: succeeded, otherwise the error number). */
  datatype Evidence = Raised | Evidence(msdbRow: Option<bool>, verifyError: Option<int>)

  function Classify(e: Evidence): VStatus {
    match e
    case Raised => ERROR
    case Evidence(None, _) => MISSING
    case Evidence(Some(damaged), verifyError) =>
      if damaged then CORRUPT
      else if verifyError == None then OK
      else if verifyError.value == 3201 || verifyError.value == 5133 then ERROR
      else CORRUPT
  }

  /** OK needs an undamaged msdb row and a VERIFYONLY without error; MISSING is the missing
      row; the two path errors, like any exception, say nothing about the backup. */
  lemma ClassifyMeans(e: Evidence)
    ensures Terminal(Classify(e))
    ensures Classify(e) == OK <==> e == Evidence(Some(false), None)
    ensures Classify(e) == MISSING <==> e.Evidence? && e.msdbRow == None
    ensures Classify(e) == ERROR <==>
              e == Raised || exists n :: n in {3201, 5133} && e == Evidence(Some(false), Some(n))
    ensures Classify(e) == CORRUPT <==>
              e.Evidence? && (e.msdbRow == Some(true)
                              || exists n :: n !in {3201, 5133} && e == Evidence(Some(false), Some(n)))
  {
    if e.Evidence? && e.msdbRow == Some(false) && e.verifyError.Some? {
      var n := e.verifyError.value;
      assert e == Evidence(Some(false), Some(n));
    }
  }

  // ---------------------------------------------------------------- what each write does

  /** CRITICAL for what casts doubt on the backup, WARNING for what only failed to check it. */
  function AlertLevel(s: VStatus): Alerts.Severity {
    match s
    case CORRUPT => Alerts.Critical
    case MISSING => Alerts.Critical
    case _ => Alerts.Warning
  }

  /** A report leaves its alert ACTIVE iff the status is not OK, and touches no other. */
  lemma ReportMeans(alerts: seq<Alerts.Alert>, key: Alerts.Key, s: VStatus)
    requires Alerts.Valid(alerts)
    ensures Alerts.OnlyAlert(alerts, key, s != OK, AlertLevel(s), Report(alerts, key, s))
  {
    Alerts.RaiseMeans(alerts, key, AlertLevel(s));
    Alerts.ResolveMeans(alerts, key, None, AlertLevel(s));
  }

  /** Only this run changes, into `after`. */
  predicate OnlyRun(before: Db, id: nat, run: VRun, after: Db) {
    after == before.(runs := before.runs[id := run])
  }

  /** One row of the sweep: a run still RUNNING ends with ERROR, and its job gets a WARNING. */
  lemma SweepRowMeans(db: Db, id: nat, now: int)
    requires Alerts.Valid(db.alerts)
    ensures
      var after := SweepRow(db, id, now);
      if id in db.runs && db.runs[id].status == RUNNING then
        && OnlyRun(db, id, db.runs[id].(status := ERROR, finishedAt := Some(now)), after.(alerts := db.alerts))
        && Alerts.OnlyAlert(db.alerts, Alerts.Key(Alerts.BackupJob, db.runs[id].jobId, Alerts.BackupVerificationFailed),
                            true, Alerts.Warning, after.alerts)
      else after == db
  {
    if id in db.runs && db.runs[id].status == RUNNING {
      var key := Alerts.Key(Alerts.BackupJob, db.runs[id].jobId, Alerts.BackupVerificationFailed);
      Alerts.RaiseMeans(db.alerts, key, Alerts.Warning);
    }
  }

  // ---------------------------------------------------------------- the interleaving

  datatype Pc =
    | Fetched                      // run and job read
    | HasRecord                    // snapshot committed, a backup record to verify
    | Verifying                    // won the RUNNING CAS
    | Classified(status: VStatus)
    | Reporting(status: VStatus)   // won the terminal CAS, alert not yet written
    | Lost                         // lost a CAS; only the commit and the refresh are left
    | Failing                      // an exception escaped; only the marker is left
    | Over

  datatype Exec = Exec(runId: nat, jobId: nat, now: int, pc: Pc)

  /** `entered` remembers the runs that, since the sweep's SELECT, went RUNNING with a start
      that was already older than its cutoff. */
  datatype Sweep = Sweep(cutoff: int, now: int, rest: set<nat>, failed: set<nat>, entered: set<nat>)

  datatype State = State(db: Db, execs: map<nat, Exec>, sweeps: map<nat, Sweep>)

  const INITIAL := State(Db(map[], 0, []), map[], map[])

  datatype Event =
    | Requested(jobId: nat)
    | CopyReported(jobId: nat, recordId: nat, status: VStatus, at: int)
    | ExecStarts(exec: nat, runId: nat, now: int)
    | Snapshots(exec: nat, instance: Option<nat>, hasRecord: bool)
    | GoesRunning(exec: nat)
    | Classifies(exec: nat, evidence: Evidence)
    | Finishes(exec: nat)
    | Reports(exec: nat)
    | Leaves(exec: nat)
    | Raises(exec: nat)
    | Marks(exec: nat, ok: bool)
    | SweepSelects(sweep: nat, cutoff: int, now: int)
    | SweepsRow(sweep: nat, id: nat)
    | SweepRowRaises(sweep: nat, id: nat, kept: bool)   // kept: the next row's commit still saves the CAS
    | AlertByAdmin(alertId: nat, action: Alerts.AdminAction)

  /** The events that are steps of executor e.exec. */
  predicate ByExecutor(e: Event) {
    e.Snapshots? || e.GoesRunning? || e.Classifies? || e.Finishes? || e.Reports? || e.Leaves? || e.Raises? || e.Marks?
  }

  /** What the step commits. */
  ghost function ExecDb(db: Db, exec: Exec, e: Event): Db {
    match (e, exec.pc)
    case (Snapshots(_, instance, _), Fetched) =>
      if exec.runId in db.runs then SetRun(db, exec.runId, db.runs[exec.runId].(instance := instance)) else db
    case (GoesRunning(_), HasRecord) => CasRunning(db, exec.runId, exec.now)
    case (Finishes(_), Classified(status)) => CasTerminal(db, exec.runId, status, exec.now)
    case (Reports(_), Reporting(status)) => db.(alerts := Report(db.alerts, JobKey(exec.jobId), status))
    case (Marks(_, ok), Failing) => if ok then CasTerminal(db, exec.runId, ERROR, exec.now) else db
    case _ => db
  }

  /** Where the step leaves the executor. */
  function ExecPc(db: Db, exec: Exec, e: Event): Pc {
    match (e, exec.pc)
    case (Snapshots(_, _, hasRecord), Fetched) => if hasRecord then HasRecord else Classified(MISSING)
    case (GoesRunning(_), HasRecord) => if RunningCasMatches(db, exec.runId) then Verifying else Lost
    case (Classifies(_, evidence), Verifying) => Classified(Classify(evidence))
    case (Finishes(_), Classified(status)) => if TerminalCasMatches(db, exec.runId) then Reporting(status) else Lost
    case (Reports(_), Reporting(_)) => Over
    case (Leaves(_), Lost) => Over
    case (Raises(_), _) => if exec.pc == Over then Over else Failing
    case (Marks(_, _), Failing) => Over
    case _ => exec.pc
  }

  /** The run that turns RUNNING in the step, if it does so with a start before the cutoff. */
  function TurnedOld(db: Db, exec: Exec, e: Event, cutoff: int): set<nat> {
    if e.GoesRunning? && exec.pc == HasRecord && RunningCasMatches(db, exec.runId) && exec.now < cutoff
    then {exec.runId} else {}
  }

  /** The commits of an executor, stage by stage. */
  lemma StageWrites(db: Db, exec: Exec, e: Event)
    requires exec.runId in db.runs && ByExecutor(e)
    ensures
      var run, after := db.runs[exec.runId], ExecDb(db, exec, e);
      match exec.pc
      case Fetched =>
        if e.Snapshots? then OnlyRun(db, exec.runId, run.(instance := e.instance), after) else after == db
      case HasRecord =>
        if e.GoesRunning? && run.status == PENDING
        then OnlyRun(db, exec.runId, run.(status := RUNNING, startedAt := Some(exec.now)), after)
        else after == db
      case Classified(status) =>
        if e.Finishes? && (run.status == PENDING || run.status == RUNNING)
        then OnlyRun(db, exec.runId, run.(status := status, finishedAt := Some(exec.now)), after)
        else after == db
      case Reporting(_) => after.(alerts := db.alerts) == db && (!e.Reports? ==> after == db)
      case Failing =>
        if e.Marks? && e.ok && (run.status == PENDING || run.status == RUNNING)
        then OnlyRun(db, exec.runId, run.(status := ERROR, finishedAt := Some(exec.now)), after)
        else after == db
      case _ => after == db
  {
  }

  /** ... and where each leads: whoever loses a CAS is lost, and an exception leads to the
      marker from everywhere but the end. */
  lemma StageMoves(db: Db, exec: Exec, e: Event)
    requires exec.runId in db.runs && ByExecutor(e) && !e.Raises?
    ensures
      var status, next := db.runs[exec.runId].status, ExecPc(db, exec, e);
      match exec.pc
      case Fetched => next == if !e.Snapshots? then exec.pc else if e.hasRecord then HasRecord else Classified(MISSING)
      case HasRecord => next == if !e.GoesRunning? then exec.pc else if status == PENDING then Verifying else Lost
      case Verifying => next == if e.Classifies? then Classified(Classify(e.evidence)) else exec.pc
      case Classified(s) =>
        next == if !e.Finishes? then exec.pc
                else if status == PENDING || status == RUNNING then Reporting(s) else Lost
      case Reporting(_) => next == if e.Reports? then Over else exec.pc
      case Lost => next == if e.Leaves? then Over else exec.pc
      case Failing => next == if e.Marks? then Over else exec.pc
      case Over => next == Over
    ensures ExecPc(db, exec, Raises(e.exec)) == if exec.pc == Over then Over else Failing
  {
  }

  ghost function ExecStep(s: State, x: nat, e: Event): State
    requires x in s.execs
  {
    var exec := s.execs[x];
    State(ExecDb(s.db, exec, e), s.execs[x := exec.(pc := ExecPc(s.db, exec, e))],
          map k | k in s.sweeps ::
            s.sweeps[k].(entered := s.sweeps[k].entered + TurnedOld(s.db, exec, e, s.sweeps[k].cutoff)))
  }

  ghost function Apply(s: State, e: Event): State {
    match e
    case Requested(jobId) => s.(db := Insert(s.db, VRun(jobId, PENDING, None, None, None)))
    case CopyReported(jobId, recordId, status, at) =>
      if !Terminal(status) then s
      else
        var db := Insert(s.db, VRun(jobId, status, Some(at), Some(at), None));
        s.(db := db.(alerts := Report(db.alerts, RecordKey(recordId), status)))
    case ExecStarts(x, runId, now) =>
      if x in s.execs || runId !in s.db.runs then s
      else s.(execs := s.execs[x := Exec(runId, s.db.runs[runId].jobId, now, Fetched)])
    case SweepSelects(k, cutoff, now) =>
      if k in s.sweeps then s
      else s.(sweeps := s.sweeps[k := Sweep(cutoff, now,
                                        set id | id in s.db.runs && Stuck(s.db.runs[id], cutoff), {}, {})])
    case SweepsRow(k, id) =>
      if k !in s.sweeps || id !in s.sweeps[k].rest then s
      else s.(db := SweepRow(s.db, id, s.sweeps[k].now),
              sweeps := s.sweeps[k := s.sweeps[k].(rest := s.sweeps[k].rest - {id})])
    case SweepRowRaises(k, id, kept) =>
      if k !in s.sweeps || id !in s.sweeps[k].rest then s
      else s.(db := if kept then SweepRow(s.db, id, s.sweeps[k].now).(alerts := s.db.alerts) else s.db,
              sweeps := s.sweeps[k := s.sweeps[k].(rest := s.sweeps[k].rest - {id},
                                                   failed := s.sweeps[k].failed + {id})])
    case AlertByAdmin(id, action) => s.(db := s.db.(alerts := Alerts.Admin(s.db.alerts, id, action)))
    case _ => if e.exec in s.execs then ExecStep(s, e.exec, e) else s
  }

  /** What the events that are no executor's stage do. */
  lemma OtherEventsMean(s: State, e: Event)
    ensures
      var t := Apply(s, e);
      match e
      case Requested(jobId) =>
        t == if exists id :: id in s.db.runs && s.db.runs[id].jobId == jobId
                             && (s.db.runs[id].status == PENDING || s.db.runs[id].status == RUNNING)
             then s
             else s.(db := s.db.(runs := s.db.runs[s.db.nextId := VRun(jobId, PENDING, None, None, None)],
                                 nextId := s.db.nextId + 1))
      case CopyReported(jobId, _, status, at) =>
        t.(db := t.db.(alerts := s.db.alerts)) ==
        if status == PENDING || status == RUNNING then s
        else s.(db := s.db.(runs := s.db.runs[s.db.nextId := VRun(jobId, status, Some(at), Some(at), None)],
                            nextId := s.db.nextId + 1))
      case ExecStarts(x, runId, now) =>
        t == if x in s.execs || runId !in s.db.runs then s
             else s.(execs := s.execs[x := Exec(runId, s.db.runs[runId].jobId, now, Fetched)])
      case SweepSelects(k, cutoff, now) =>
        t.(sweeps := s.sweeps) == s
        && (k !in s.sweeps ==>
              && k in t.sweeps && t.sweeps[k].cutoff == cutoff && t.sweeps[k].now == now
              && forall id :: id in t.sweeps[k].rest <==>
                   id in s.db.runs && s.db.runs[id].status == RUNNING && s.db.runs[id].startedAt.Some?
                   && s.db.runs[id].startedAt.value < cutoff)
      case SweepsRow(k, id) =>
        k in s.sweeps && id in s.sweeps[k].rest ==>
          && t.db == SweepRow(s.db, id, s.sweeps[k].now)
          && k in t.sweeps && t.sweeps[k].rest == s.sweeps[k].rest - {id} && t.sweeps[k].failed == s.sweeps[k].failed
      case SweepRowRaises(k, id, kept) =>
        k in s.sweeps && id in s.sweeps[k].rest ==>
          && t.db.alerts == s.db.alerts
          && t.db.runs == (if kept then SweepRow(s.db, id, s.sweeps[k].now).runs else s.db.runs)
          && k in t.sweeps && t.sweeps[k].rest == s.sweeps[k].rest - {id}
          && t.sweeps[k].failed == s.sweeps[k].failed + {id}
      case _ => true
  {
    match e
    case Requested(jobId) => InsertMeans(s.db, VRun(jobId, PENDING, None, None, None));
    case CopyReported(jobId, _, status, at) => InsertMeans(s.db, VRun(jobId, status, Some(at), Some(at), None));
    case _ =>
  }

  lemma InsertMeans(db: Db, run: VRun)
    ensures
      Insert(db, run) ==
      if (run.status == PENDING || run.status == RUNNING)
         && exists id :: id in db.runs && db.runs[id].jobId == run.jobId
                         && (db.runs[id].status == PENDING || db.runs[id].status == RUNNING)
      then db
      else db.(runs := db.runs[db.nextId := run], nextId := db.nextId + 1)
  {
    assert HasActive(db, run.jobId) <==>
           exists id :: id in db.runs && db.runs[id].jobId == run.jobId
                        && (db.runs[id].status == PENDING || db.runs[id].status == RUNNING);
  }

  ghost function After(events: seq<Event>): State {
    if events == [] then INITIAL else Apply(After(events[..|events| - 1]), events[|events| - 1])
  }

  /** The same run continued from any state. */
  ghost function Later(s: State, events: seq<Event>): State {
    if events == [] then s else Apply(Later(s, events[..|events| - 1]), events[|events| - 1])
  }

  // ---------------------------------------------------------------- the invariant

  ghost predicate OneActive(db: Db) {
    && (forall id | id in db.runs :: id < db.nextId)
    && (forall i, k | i in db.runs && k in db.runs && i != k && db.runs[i].jobId == db.runs[k].jobId ::
          Terminal(db.runs[i].status) || Terminal(db.runs[k].status))
  }

  /** An executor about to report has ended its own run with exactly that status. */
  ghost predicate ExecOk(db: Db, exec: Exec) {
    && exec.runId in db.runs && db.runs[exec.runId].jobId == exec.jobId
    && (exec.pc.Classified? || exec.pc.Reporting? ==> Terminal(exec.pc.status))
    && (exec.pc.Reporting? ==> db.runs[exec.runId].status == exec.pc.status)
    && (exec.pc == Lost ==> db.runs[exec.runId].status != PENDING)
  }

  predicate Tracked(sweep: Sweep, id: nat) { id in sweep.rest || id in sweep.failed || id in sweep.entered }

  /** A sweep keeps track of every old RUNNING run, and of nothing but such runs and those
      that ended meanwhile. */
  ghost predicate SweepOk(db: Db, sweep: Sweep) {
    && (forall id | id in db.runs && Stuck(db.runs[id], sweep.cutoff) :: Tracked(sweep, id))
    && (forall id | Tracked(sweep, id) ::
          id in db.runs && db.runs[id].status != PENDING
          && (db.runs[id].status == RUNNING ==> Stuck(db.runs[id], sweep.cutoff)))
  }

  ghost predicate Inv(s: State) {
    && OneActive(s.db)
    && (forall x | x in s.execs :: ExecOk(s.db, s.execs[x]))
    && (forall k | k in s.sweeps :: SweepOk(s.db, s.sweeps[k]))
  }

  /** What may happen to a run between any two points of a history. */
  ghost predicate Evolves(a: VRun, b: VRun) {
    && b.jobId == a.jobId
    && (Terminal(a.status) ==> b.status == a.status && b.startedAt == a.startedAt && b.finishedAt == a.finishedAt)
    && (a.status == RUNNING ==> b.status != PENDING)
    && (a.status == RUNNING && b.status == RUNNING ==> b.startedAt == a.startedAt)
  }

  /** A write that leaves every run and only lets runs evolve. */
  ghost predicate DbEvolves(a: Db, b: Db) {
    && a.nextId <= b.nextId && a.runs.Keys <= b.runs.Keys
    && forall id | id in a.runs :: Evolves(a.runs[id], b.runs[id])
  }

  lemma InsertOk(db: Db, run: VRun)
    requires OneActive(db)
    ensures OneActive(Insert(db, run)) && DbEvolves(db, Insert(db, run))
    ensures forall id | id in Insert(db, run).runs && id !in db.runs ::
              id == db.nextId && Insert(db, run).runs[id] == run
  {
  }

  /** A copy-integrity report never conflicts with the active-run index, whatever is
      active: the row it inserts is already terminal. */
  lemma CopyInsertsNeverConflict(db: Db, run: VRun)
    requires Terminal(run.status)
    ensures Insert(db, run) != db && db.nextId in Insert(db, run).runs && Insert(db, run).runs[db.nextId] == run
    ensures OneActive(db) ==> OneActive(Insert(db, run))
    ensures forall j :: HasActive(Insert(db, run), j) ==> HasActive(db, j)
  {
    forall j | HasActive(Insert(db, run), j)
      ensures HasActive(db, j)
    {
      var id :| id in Insert(db, run).runs && Insert(db, run).runs[id].jobId == j
                && !Terminal(Insert(db, run).runs[id].status);
      assert id in db.runs && db.runs[id].jobId == j;
    }
  }

  lemma SetRunOk(db: Db, id: nat, run: VRun)
    requires OneActive(db) && id in db.runs && Evolves(db.runs[id], run)
    requires !Terminal(run.status) ==> !Terminal(db.runs[id].status)
    ensures OneActive(SetRun(db, id, run)) && DbEvolves(db, SetRun(db, id, run))
  {
  }

  lemma ExecStaysOk(a: Db, b: Db, exec: Exec)
    requires DbEvolves(a, b) && ExecOk(a, exec)
    ensures ExecOk(b, exec)
  {
  }

  /** A sweep stays accounted for as long as runs that turn RUNNING are remembered. */
  lemma SweepStaysOk(a: Db, b: Db, sweep: Sweep, went: set<nat>)
    requires DbEvolves(a, b) && SweepOk(a, sweep)
    requires forall id | id in b.runs && Stuck(b.runs[id], sweep.cutoff) ::
               id in went || (id in a.runs && a.runs[id].status == RUNNING)
    requires forall id | id in went :: id in b.runs && Stuck(b.runs[id], sweep.cutoff)
    ensures SweepOk(b, sweep.(entered := sweep.entered + went))
  {
  }

  lemma ExecDbOk(db: Db, exec: Exec, e: Event)
    requires OneActive(db) && ExecOk(db, exec)
    ensures OneActive(ExecDb(db, exec, e)) && DbEvolves(db, ExecDb(db, exec, e))
  {
    var after := ExecDb(db, exec, e);
    SetRunOk(db, exec.runId, after.runs[exec.runId]);
    assert after.runs == db.runs[exec.runId := after.runs[exec.runId]];
  }

  lemma ExecMovedOk(db: Db, exec: Exec, e: Event)
    requires ExecOk(db, exec)
    ensures ExecOk(ExecDb(db, exec, e), exec.(pc := ExecPc(db, exec, e)))
  {
  }

  /** An executor writes no run but its own, and not even that when it is over. */
  lemma OthersStay(db: Db, exec: Exec, e: Event, id: nat)
    requires id in db.runs && (exec.runId != id || exec.pc == Over)
    ensures id in ExecDb(db, exec, e).runs && ExecDb(db, exec, e).runs[id] == db.runs[id]
    ensures exec.pc == Over ==> ExecPc(db, exec, e) == Over
  {
  }

  lemma TurnedOldOk(db: Db, exec: Exec, e: Event, cutoff: int)
    requires ExecOk(db, exec)
    ensures forall id | id in ExecDb(db, exec, e).runs && Stuck(ExecDb(db, exec, e).runs[id], cutoff) ::
              id in TurnedOld(db, exec, e, cutoff) || (id in db.runs && db.runs[id].status == RUNNING)
    ensures forall id | id in TurnedOld(db, exec, e, cutoff) ::
              id in ExecDb(db, exec, e).runs && Stuck(ExecDb(db, exec, e).runs[id], cutoff)
  {
  }

  lemma ExecStepOk(s: State, x: nat, e: Event)
    requires Inv(s) && x in s.execs
    ensures Inv(ExecStep(s, x, e)) && DbEvolves(s.db, ExecStep(s, x, e).db)
  {
    var exec := s.execs[x];
    var db := ExecDb(s.db, exec, e);
    ExecDbOk(s.db, exec, e);
    ExecMovedOk(s.db, exec, e);
    forall y | y in s.execs
      ensures ExecOk(db, s.execs[y])
    {
      ExecStaysOk(s.db, db, s.execs[y]);
    }
    forall k | k in s.sweeps
      ensures SweepOk(db, s.sweeps[k].(entered := s.sweeps[k].entered + TurnedOld(s.db, exec, e, s.sweeps[k].cutoff)))
    {
      TurnedOldOk(s.db, exec, e, s.sweeps[k].cutoff);
      SweepStaysOk(s.db, db, s.sweeps[k], TurnedOld(s.db, exec, e, s.sweeps[k].cutoff));
    }
  }

  /** No write here makes a run RUNNING, so every sweep stays accounted for. */
  lemma NoNewRunningOk(s: State, db: Db)
    requires Inv(s) && OneActive(db) && DbEvolves(s.db, db)
    requires forall r | r in db.runs && db.runs[r].status == RUNNING :: r in s.db.runs && s.db.runs[r].status == RUNNING
    ensures Inv(s.(db := db))
  {
    forall x | x in s.execs
      ensures ExecOk(db, s.execs[x])
    {
      ExecStaysOk(s.db, db, s.execs[x]);
    }
    forall k | k in s.sweeps
      ensures SweepOk(db, s.sweeps[k])
    {
      SweepStaysOk(s.db, db, s.sweeps[k], {});
      assert s.sweeps[k].(entered := s.sweeps[k].entered + {}) == s.sweeps[k];
    }
  }

  lemma InsertEventOk(s: State, s': State, run: VRun)
    requires Inv(s) && s'.db.runs == Insert(s.db, run).runs && s'.db.nextId == Insert(s.db, run).nextId
    requires s'.execs == s.execs && s'.sweeps == s.sweeps && run.status != RUNNING
    ensures Inv(s') && DbEvolves(s.db, s'.db)
  {
    InsertOk(s.db, run);
    NoNewRunningOk(s, s'.db);
  }

  lemma SweepRowDbOk(db: Db, id: nat, now: int)
    requires OneActive(db)
    ensures OneActive(SweepRow(db, id, now)) && DbEvolves(db, SweepRow(db, id, now))
    ensures forall r | r in SweepRow(db, id, now).runs && SweepRow(db, id, now).runs[r].status == RUNNING ::
              r != id && r in db.runs && db.runs[r].status == RUNNING
  {
    if id in db.runs && db.runs[id].status == RUNNING {
      SetRunOk(db, id, db.runs[id].(status := ERROR, finishedAt := Some(now)));
    }
  }

  lemma VisitOk(s: State, k: nat, id: nat, failed: set<nat>)
    requires Inv(s) && k in s.sweeps && id in s.sweeps[k].rest && failed <= {id}
    requires id in failed || (id in s.db.runs ==> s.db.runs[id].status != RUNNING)
    ensures
      var sweep := s.sweeps[k].(rest := s.sweeps[k].rest - {id}, failed := s.sweeps[k].failed + failed);
      Inv(s.(sweeps := s.sweeps[k := sweep]))
  {
    assert SweepOk(s.db, s.sweeps[k]);
  }

  /** A visited row leaves the sweep's rest either no longer RUNNING or recorded as failed. */
  lemma SweepRowOk(s: State, k: nat, id: nat)
    requires Inv(s) && k in s.sweeps && id in s.sweeps[k].rest
    ensures Inv(Apply(s, SweepsRow(k, id))) && DbEvolves(s.db, Apply(s, SweepsRow(k, id)).db)
  {
    var db := SweepRow(s.db, id, s.sweeps[k].now);
    SweptRowOk(s, id, s.sweeps[k].now);
    VisitOk(s.(db := db), k, id, {});
    assert s.sweeps[k].failed + {} == s.sweeps[k].failed;
    assert Apply(s, SweepsRow(k, id)) ==
           s.(db := db, sweeps := s.sweeps[k := s.sweeps[k].(rest := s.sweeps[k].rest - {id})]);
  }

  lemma SweptRowOk(s: State, id: nat, now: int)
    requires Inv(s)
    ensures
      var db := SweepRow(s.db, id, now);
      DbEvolves(s.db, db) && Inv(s.(db := db)) && (id in db.runs ==> db.runs[id].status != RUNNING)
  {
    SweepRowDbOk(s.db, id, now);
    NoNewRunningOk(s, SweepRow(s.db, id, now));
  }

  /** The CAS of a row whose alert raised, saved by a later commit or rolled back. */
  lemma KeptRowOk(db: Db, id: nat, now: int, kept: bool)
    requires OneActive(db)
    ensures
      var after := if kept then SweepRow(db, id, now).(alerts := db.alerts) else db;
      && OneActive(after) && DbEvolves(db, after)
      && forall r | r in after.runs && after.runs[r].status == RUNNING :: r in db.runs && db.runs[r].status == RUNNING
  {
    SweepRowDbOk(db, id, now);
  }

  lemma SweepRowRaisesOk(s: State, k: nat, id: nat, kept: bool)
    requires Inv(s) && k in s.sweeps && id in s.sweeps[k].rest
    ensures Inv(Apply(s, SweepRowRaises(k, id, kept))) && DbEvolves(s.db, Apply(s, SweepRowRaises(k, id, kept)).db)
  {
    var db := if kept then SweepRow(s.db, id, s.sweeps[k].now).(alerts := s.db.alerts) else s.db;
    assert DbEvolves(s.db, db) && Inv(s.(db := db)) by {
      KeptRowOk(s.db, id, s.sweeps[k].now, kept);
      NoNewRunningOk(s, db);
    }
    assert Apply(s, SweepRowRaises(k, id, kept)).db == db;
    VisitOk(s.(db := db), k, id, {id});
  }

  lemma SweepSelectsOk(s: State, e: Event)
    requires Inv(s) && e.SweepSelects?
    ensures Inv(Apply(s, e)) && DbEvolves(s.db, Apply(s, e).db)
  {
  }

  lemma ExecStartsOk(s: State, e: Event)
    requires Inv(s) && e.ExecStarts?
    ensures Inv(Apply(s, e)) && DbEvolves(s.db, Apply(s, e).db)
  {
  }

  lemma AlertByAdminOk(s: State, e: Event)
    requires Inv(s) && e.AlertByAdmin?
    ensures Inv(Apply(s, e)) && DbEvolves(s.db, Apply(s, e).db)
  {
    NoNewRunningOk(s, Apply(s, e).db);
  }

  lemma InsertStepOk(s: State, e: Event)
    requires Inv(s) && (e.Requested? || e.CopyReported?)
    ensures Inv(Apply(s, e)) && DbEvolves(s.db, Apply(s, e).db)
  {
    match e
    case Requested(jobId) => InsertEventOk(s, Apply(s, e), VRun(jobId, PENDING, None, None, None));
    case CopyReported(jobId, _, status, at) =>
      if Terminal(status) {
        InsertEventOk(s, Apply(s, e), VRun(jobId, status, Some(at), Some(at), None));
      }
  }

  lemma StepOk(s: State, e: Event)
    requires Inv(s)
    ensures Inv(Apply(s, e)) && DbEvolves(s.db, Apply(s, e).db)
  {
    if e.Requested? || e.CopyReported? {
      InsertStepOk(s, e);
    } else if e.ExecStarts? {
      ExecStartsOk(s, e);
    } else if e.SweepSelects? {
      SweepSelectsOk(s, e);
    } else if e.AlertByAdmin? {
      AlertByAdminOk(s, e);
    } else if ByExecutor(e) {
      if e.exec in s.execs {
        ExecStepOk(s, e.exec, e);
      }
    } else if e.sweep in s.sweeps && e.id in s.sweeps[e.sweep].rest {
      match e
      case SweepsRow(k, id) => SweepRowOk(s, k, id);
      case SweepRowRaises(k, id, kept) => SweepRowRaisesOk(s, k, id, kept);
    }
  }

  /** In every reachable state at most one verification run of a job is active. */
  lemma {:induction false} EveryReachableState(events: seq<Event>)
    ensures Inv(After(events)) && OneActive(After(events).db)
  {
    if events != [] {
      EveryReachableState(events[..|events| - 1]);
      StepOk(After(events[..|events| - 1]), events[|events| - 1]);
    }
  }

  // ---------------------------------------------------------------- histories

  /** Each run gets at most one terminal status and keeps its finish; only the instance
      snapshot of an executor that reads it late may still change. */
  lemma {:induction false} TerminalIsFinal(events: seq<Event>, n: nat)
    requires n <= |events|
    ensures DbEvolves(After(events[..n]).db, After(events).db)
    decreases |events|
  {
    if n == |events| {
      assert events[..n] == events;
    } else {
      var prefix := events[..|events| - 1];
      assert prefix[..n] == events[..n];
      TerminalIsFinal(prefix, n);
      EveryReachableState(prefix);
      StepOk(After(prefix), events[|events| - 1]);
    }
  }

  /** An executor changes an alert only when it has ended its own run, and then reports
      the status that run has; it never touches another run. */
  lemma OnlyTheEnderReports(events: seq<Event>, x: nat, e: Event)
    requires x in After(events).execs && ByExecutor(e) && e.exec == x
    ensures
      var s := After(events);
      var exec := s.execs[x];
      var db := Apply(s, e).db;
      && exec.runId in s.db.runs
      && (db.alerts != s.db.alerts ==>
            exec.pc.Reporting? && s.db.runs[exec.runId].status == exec.pc.status && Terminal(exec.pc.status)
            && db.alerts == Report(s.db.alerts, JobKey(s.db.runs[exec.runId].jobId), exec.pc.status))
      && (forall id | id in s.db.runs && id != exec.runId :: id in db.runs && db.runs[id] == s.db.runs[id])
  {
    EveryReachableState(events);
    assert ExecOk(After(events).db, After(events).execs[x]);
  }

  /** The executor has lost a CAS, or an exception escaped from it, or it is over. */
  predicate Done(pc: Pc) { pc == Lost || pc == Failing || pc == Over }

  /** The event is executor x losing its RUNNING CAS, or its terminal CAS. */
  ghost predicate Loses(s: State, x: nat, e: Event) {
    && x in s.execs && s.execs[x].runId in s.db.runs && ByExecutor(e) && e.exec == x
    && var status := s.db.runs[s.execs[x].runId].status;
    || (e.GoesRunning? && s.execs[x].pc == HasRecord && status != PENDING)
    || (e.Finishes? && s.execs[x].pc.Classified? && Terminal(status))
  }

  lemma LoserIsLost(s: State, x: nat, e: Event)
    requires Inv(s) && Loses(s, x, e)
    ensures Inv(Apply(s, e)) && Apply(s, e).db == s.db && s.db.runs[s.execs[x].runId].status != PENDING
    ensures Apply(s, e).execs == s.execs[x := s.execs[x].(pc := Lost)]
  {
    StepOk(s, e);
  }

  /** Whatever executors there are: after losing a CAS an executor touches no alert, and of
      its later steps only its marker can change a row, exactly when it runs while the run
      is RUNNING. If the run had ended when the CAS was lost, no later step changes anything. */
  lemma AfterLosing(s: State, x: nat, e: Event, later: seq<Event>, own: Event)
    requires Inv(s) && Loses(s, x, e) && ByExecutor(own) && own.exec == x
    ensures Apply(s, e).db == s.db && x in Apply(s, e).execs && Apply(s, e).execs[x].pc == Lost
    ensures
      var id := s.execs[x].runId;
      var t := Later(Apply(s, e), later);
      && x in t.execs && id in t.db.runs
      && Apply(t, own).db.alerts == t.db.alerts
      && (Apply(t, own).db != t.db <==>
            own == Marks(x, true) && t.execs[x].pc == Failing && t.db.runs[id].status == RUNNING)
      && (Terminal(s.db.runs[id].status) ==> Apply(t, own).db == t.db)
  {
    LoserIsLost(s, x, e);
    var id := s.execs[x].runId;
    var t := Later(Apply(s, e), later);
    assert x in t.execs && Done(t.execs[x].pc) && t.execs[x].runId == id && id in t.db.runs
           && t.db.runs[id].status != PENDING
           && (Terminal(s.db.runs[id].status) ==> Terminal(t.db.runs[id].status)) by {
      DoneForEver(Apply(s, e), x, later);
    }
    DoneStep(t, x, own);
  }

  lemma DoneStep(t: State, x: nat, own: Event)
    requires x in t.execs && Done(t.execs[x].pc) && ByExecutor(own) && own.exec == x
    requires t.execs[x].runId in t.db.runs && t.db.runs[t.execs[x].runId].status != PENDING
    ensures Apply(t, own).db.alerts == t.db.alerts
    ensures Apply(t, own).db != t.db <==>
              own == Marks(x, true) && t.execs[x].pc == Failing && t.db.runs[t.execs[x].runId].status == RUNNING
  {
    var exec := t.execs[x];
    if own == Marks(x, true) && exec.pc == Failing && t.db.runs[exec.runId].status == RUNNING {
      assert Apply(t, own).db.runs[exec.runId].status == ERROR;
    }
  }

  lemma DoneStays(s: State, x: nat, e: Event)
    requires x in s.execs && Done(s.execs[x].pc)
    ensures x in Apply(s, e).execs && Done(Apply(s, e).execs[x].pc) && Apply(s, e).execs[x].runId == s.execs[x].runId
  {
  }

  /** Between two states of one history a run that left PENDING has not come back to it. */
  lemma NotPendingAgain(a: Db, b: Db, c: Db, id: nat)
    requires DbEvolves(a, b) && DbEvolves(b, c) && id in a.runs && a.runs[id].status != PENDING
    ensures DbEvolves(a, c) && c.runs[id].status != PENDING
  {
  }

  lemma {:induction false} DoneForEver(s: State, x: nat, later: seq<Event>)
    requires Inv(s) && x in s.execs && Done(s.execs[x].pc)
    requires s.execs[x].runId in s.db.runs && s.db.runs[s.execs[x].runId].status != PENDING
    ensures
      var t := Later(s, later);
      && Inv(t) && DbEvolves(s.db, t.db) && x in t.execs && Done(t.execs[x].pc) && t.execs[x].runId == s.execs[x].runId
      && s.execs[x].runId in t.db.runs && t.db.runs[s.execs[x].runId].status != PENDING
  {
    if later != [] {
      var n := |later| - 1;
      DoneForEver(s, x, later[..n]);
      var t := Later(s, later[..n]);
      DoneStays(t, x, later[n]);
      assert Inv(Apply(t, later[n])) && DbEvolves(s.db, Apply(t, later[n]).db)
             && Apply(t, later[n]).db.runs[s.execs[x].runId].status != PENDING by {
        StepOk(t, later[n]);
        NotPendingAgain(s.db, t.db, Apply(t, later[n]).db, s.execs[x].runId);
      }
    }
  }

  // ---------------------------------------------------------------- one executor per run

  /** Whoever creates a PENDING run starts one executor for it, and nobody else starts any. */
  ghost predicate ProperStart(s: State, e: Event)
    requires e.ExecStarts?
  {
    e.exec in s.execs || e.runId !in s.db.runs
    || (s.db.runs[e.runId].status == PENDING && forall y | y in s.execs :: s.execs[y].runId != e.runId)
  }

  ghost predicate OneExecutorEach(events: seq<Event>) {
    forall i: nat | i < |events| && events[i].ExecStarts? :: ProperStart(After(events[..i]), events[i])
  }

  /** Nobody but the executor turns its run RUNNING, and a CAS it has lost was lost to the end of the run. */
  ghost predicate Alone(db: Db, exec: Exec) {
    && exec.runId in db.runs
    && (exec.pc == Fetched || exec.pc == HasRecord ==> db.runs[exec.runId].status == PENDING)
    && (exec.pc == Lost ==> Terminal(db.runs[exec.runId].status))
  }

  ghost predicate Solo(s: State) {
    && (forall x | x in s.execs :: Alone(s.db, s.execs[x]))
    && (forall x, y | x in s.execs && y in s.execs && x != y :: s.execs[x].runId != s.execs[y].runId)
  }

  lemma AloneMoves(db: Db, exec: Exec, e: Event)
    requires Alone(db, exec)
    ensures Alone(ExecDb(db, exec, e), exec.(pc := ExecPc(db, exec, e)))
  {
  }

  lemma ExecutorKeepsSolo(s: State, e: Event)
    requires Solo(s) && ByExecutor(e) && e.exec in s.execs
    ensures Solo(ExecStep(s, e.exec, e))
  {
    var exec := s.execs[e.exec];
    AloneMoves(s.db, exec, e);
    forall y | y in s.execs && y != e.exec
      ensures Alone(ExecDb(s.db, exec, e), s.execs[y])
    {
      OthersStay(s.db, exec, e, s.execs[y].runId);
    }
  }

  lemma OtherStepKeepsSolo(s: State, e: Event)
    requires Inv(s) && Solo(s) && !ByExecutor(e) && !e.ExecStarts?
    ensures Solo(Apply(s, e))
  {
    assert Apply(s, e).execs == s.execs;
    forall x | x in s.execs
      ensures Alone(Apply(s, e).db, s.execs[x])
    {
      assert Alone(s.db, s.execs[x]) && s.execs[x].runId < s.db.nextId;
    }
  }

  lemma {:induction false} EveryExecutorIsAlone(events: seq<Event>)
    requires OneExecutorEach(events)
    ensures Inv(After(events)) && Solo(After(events))
  {
    EveryReachableState(events);
    if events != [] {
      var n := |events| - 1;
      assert forall i: nat | i < n :: events[..n][..i] == events[..i];
      assert OneExecutorEach(events[..n]);
      EveryExecutorIsAlone(events[..n]);
      var s := After(events[..n]);
      if ByExecutor(events[n]) {
        if events[n].exec in s.execs {
          ExecutorKeepsSolo(s, events[n]);
        }
      } else if !events[n].ExecStarts? {
        OtherStepKeepsSolo(s, events[n]);
      } else {
        assert ProperStart(s, events[n]);
      }
    }
  }

  lemma {:induction false} AfterIsLater(events: seq<Event>, n: nat)
    requires n <= |events|
    ensures After(events) == Later(After(events[..n]), events[n..])
    decreases |events|
  {
    if n == |events| {
      assert events[..n] == events;
    } else {
      var front, rest := events[..|events| - 1], events[n..];
      AfterIsLater(front, n);
      assert front[..n] == events[..n] && rest[..|rest| - 1] == front[n..];
    }
  }

  lemma NextState(events: seq<Event>, n: nat)
    requires n < |events|
    ensures After(events[..n + 1]) == Apply(After(events[..n]), events[n])
  {
    assert events[..n + 1][..n] == events[..n];
  }

  lemma StateBetween(events: seq<Event>, n: nat, m: nat)
    requires n <= m <= |events|
    ensures After(events[..m]) == Later(After(events[..n]), events[n..m])
  {
    AfterIsLater(events[..m], n);
    assert events[..m][..n] == events[..n] && events[..m][n..] == events[n..m];
  }

  lemma LosesToTheEnd(events: seq<Event>, x: nat, e: Event)
    requires OneExecutorEach(events) && Loses(After(events), x, e)
    ensures Inv(After(events)) && e.Finishes?
  {
    EveryExecutorIsAlone(events);
    assert Alone(After(events).db, After(events).execs[x]);
  }

  /** The RUNNING CAS is never lost. An executor that loses the terminal CAS commits nothing
      in that step (m = k) and in no later step of its own, not even by its marker when an
      exception escapes after the loss. */
  lemma LosersChangeNothing(events: seq<Event>, x: nat, k: nat, m: nat)
    requires k <= m < |events| && OneExecutorEach(events)
    requires Loses(After(events[..k]), x, events[k]) && ByExecutor(events[m]) && events[m].exec == x
    ensures events[k].Finishes?
    ensures After(events[..m + 1]).db == After(events[..m]).db
  {
    assert Inv(After(events[..k])) && events[k].Finishes? by {
      assert forall i: nat | i < k :: events[..k][..i] == events[..i];
      LosesToTheEnd(events[..k], x, events[k]);
    }
    NextState(events, k);
    NextState(events, m);
    if m == k {
      LoserIsLost(After(events[..k]), x, events[k]);
    } else {
      StateBetween(events, k + 1, m);
      AfterLosing(After(events[..k]), x, events[k], events[k + 1..m], events[m]);
    }
  }

  // ---------------------------------------------------------------- the sweep

  /** When a sweep has visited all its rows, the RUNNING runs older than its cutoff are
      exactly the RUNNING ones whose row raised or that, since the sweep's SELECT, turned
      RUNNING with a start already that old. */
  lemma FinishedSweepLeavesOnlyNewcomers(events: seq<Event>, k: nat, id: nat)
    requires k in After(events).sweeps && After(events).sweeps[k].rest == {} && id in After(events).db.runs
    ensures
      var run, sweep := After(events).db.runs[id], After(events).sweeps[k];
      run.status == RUNNING && run.startedAt.Some? && run.startedAt.value < sweep.cutoff <==>
      run.status == RUNNING && (id in sweep.failed || id in sweep.entered)
  {
    EveryReachableState(events);
    assert SweepOk(After(events).db, After(events).sweeps[k]);
    assert Tracked(After(events).sweeps[k], id) <==>
           id in After(events).sweeps[k].failed || id in After(events).sweeps[k].entered;
  }

  lemma Extend(events: seq<Event>, e: Event)
    ensures After(events + [e]) == Apply(After(events), e)
  {
    assert (events + [e])[..|events|] == events;
  }

  /** A run of job 7 requested, its executor started at instant 100, a record found. */
  const READY_TO_RUN: seq<Event> := [Requested(7)] + [ExecStarts(0, 0, 100)] + [Snapshots(0, None, true)]

  lemma ReadyToRun()
    ensures After(READY_TO_RUN).db.runs == map[0 := VRun(7, PENDING, None, None, None)]
    ensures After(READY_TO_RUN).db.nextId == 1 && After(READY_TO_RUN).db.alerts == []
    ensures After(READY_TO_RUN).execs == map[0 := Exec(0, 7, 100, HasRecord)] && After(READY_TO_RUN).sweeps == map[]
  {
    var es: seq<Event> := [Requested(7)];
    assert es[..0] == [] && !HasActive(INITIAL.db, 7);
    assert After(es) == State(Db(map[0 := VRun(7, PENDING, None, None, None)], 1, []), map[], map[]);
    Extend(es, ExecStarts(0, 0, 100));
    Extend(es + [ExecStarts(0, 0, 100)], Snapshots(0, None, true));
  }

  /** Newcomers do occur: an executor takes its clock reading when it starts, so a run
      can turn RUNNING with a start older than the cutoff of a sweep that already ran. */
  lemma ErrorFreeSweepCanLeaveAnOldRun()
    ensures exists events :: 0 in After(events).sweeps && 0 in After(events).db.runs &&
              After(events).sweeps[0].rest == {} && After(events).sweeps[0].failed == {} &&
              After(events).db.runs[0].status == RUNNING && After(events).db.runs[0].startedAt.Some? &&
              After(events).db.runs[0].startedAt.value < After(events).sweeps[0].cutoff
  {
    ReadyToRun();
    var swept := READY_TO_RUN + [SweepSelects(0, 500, 1000)];
    Extend(READY_TO_RUN, SweepSelects(0, 500, 1000));
    assert After(swept).sweeps[0].rest == {} && After(swept).sweeps[0].failed == {};
    Extend(swept, GoesRunning(0));
    assert Stuck(After(swept + [GoesRunning(0)]).db.runs[0], 500);
  }

  // ---------------------------------------------------------------- a PENDING run without executor

  ghost predicate Orphaned(s: State, id: nat) {
    && id in s.db.runs && s.db.runs[id].status == PENDING
    && forall x | x in s.execs :: s.execs[x].runId != id || s.execs[x].pc == Over
  }

  /** No sweep ever ends a PENDING run whose executor is gone: unless a new executor is
      started for it, it stays PENDING and its job gets no further verification run. */
  lemma {:induction false} OrphanedPendingIsNeverSwept(s: State, events: seq<Event>, id: nat)
    requires Inv(s) && Orphaned(s, id)
    requires forall i :: 0 <= i < |events| && events[i].ExecStarts? ==> events[i].runId != id
    ensures Inv(Later(s, events)) && Orphaned(Later(s, events), id)
    ensures Later(s, events).db.runs[id].jobId == s.db.runs[id].jobId
    ensures Apply(Later(s, events), Requested(s.db.runs[id].jobId)) == Later(s, events)
  {
    if events != [] {
      var n := |events| - 1;
      OrphanedPendingIsNeverSwept(s, events[..n], id);
      StepOk(Later(s, events[..n]), events[n]);
      OrphanStep(Later(s, events[..n]), events[n], id);
    }
    assert HasActive(Later(s, events).db, s.db.runs[id].jobId);
  }

  lemma OrphanedExecutorIsOver(s: State, e: Event, id: nat)
    requires Inv(s) && Orphaned(s, id) && ByExecutor(e) && e.exec in s.execs
    ensures Orphaned(ExecStep(s, e.exec, e), id) && ExecStep(s, e.exec, e).db.runs[id] == s.db.runs[id]
  {
    OthersStay(s.db, s.execs[e.exec], e, id);
  }

  lemma OrphanStep(s: State, e: Event, id: nat)
    requires Inv(s) && Orphaned(s, id) && (e.ExecStarts? ==> e.runId != id)
    ensures Orphaned(Apply(s, e), id) && Apply(s, e).db.runs[id] == s.db.runs[id]
  {
    if ByExecutor(e) {
      if e.exec in s.execs {
        OrphanedExecutorIsOver(s, e, id);
      }
    } else {
      assert id < s.db.nextId;
    }
  }
}
