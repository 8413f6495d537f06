/** The handlers of app/routers/job_runs.py and the sweeps of app/workers/alert_worker.py
    as they act on the stored rows. */
module JobRunStore {
  import opened Wrappers
  import opened JobRuns
  import opened JobRunMachine
  import Effects = JobRunEffects
  import Alerts
  import AlertTable
  import opened Sets

  /** The two sweeps differ only in what they select and write. */
  datatype Sweep = Timeouts | StuckPending

  function SelectCall(sweep: Sweep, id: nat): Call {
    if sweep.Timeouts? then TimeoutSelect(id) else StuckSelect(id)
  }

  function SweepAlert(sweep: Sweep, jobId: nat): Alerts.Key {
    JobAlert(jobId, if sweep.Timeouts? then Alerts.JobTimeout else Alerts.JobStuckPending)
  }

  /** What the SELECT and the elapsed-time check let through. */
  predicate Selects(db: Store, sweep: Sweep, now: int, run: Run) {
    if sweep.Timeouts? then run.status == RUNNING && Overdue(db, run, now)
    else run.status == PENDING && run.dispatchedAt == None && Undelivered(db, run, now)
  }

  function Selected(db: Store, sweep: Sweep, now: int): set<nat> {
    set id | id in db.runs && Selects(db, sweep, now, db.runs[id])
  }

  /** The guarded UPDATE a sweep issues for a selected run. */
  function SweepReq(sweep: Sweep, id: nat, run: Run, now: int): Request {
    if sweep.Timeouts? then TimeoutReq(id, if run.startedAt.Some? then run.startedAt.value else 0, now)
    else StuckReq(id, now)
  }

  lemma SelectedIsRead(db: Store, sweep: Sweep, now: int, id: nat)
    requires id in db.runs
    ensures id in Selected(db, sweep, now) <==> Read(db, SelectCall(sweep, id), now).Proceed?
    ensures id in Selected(db, sweep, now) ==>
              Read(db, SelectCall(sweep, id), now) == Proceed(SweepReq(sweep, id, db.runs[id], now))
  {
  }

  /** The row that UPDATE leaves behind. */
  function Ended(sweep: Sweep, run: Run, now: int): Run {
    if sweep.Timeouts? then
      run.(status := TIMEOUT, finishedAt := Some(now),
           durationSeconds := Some(Seconds(now - (if run.startedAt.Some? then run.startedAt.value else 0))),
           details := run.details[ErrorMessage := Some("timeout")])
    else
      run.(status := STUCK, finishedAt := Some(now), cancelRequestedAt := Some(now),
           cancelRequestedBy := Some("system:stuck_pending_detector"), cancelAcknowledgedAt := Some(now),
           details := run.details[ErrorMessage := Some("stuck")])
  }

  /** The whole transaction for one selected run whose UPDATE matched. */
  ghost function EndRun(view: Store, sweep: Sweep, id: nat, now: int): Store
    requires id in view.runs && view.runs[id].jobId in view.jobs
  {
    var run := view.runs[id];
    view.(runs := view.runs[id := Ended(sweep, run, now)],
          jobs := view.jobs[run.jobId := view.jobs[run.jobId].(lastRunAt := Some(now))],
          alerts := Alerts.Raise(view.alerts, SweepAlert(sweep, run.jobId), Alerts.Critical))
  }

  lemma EndRunIsCommit(view: Store, sweep: Sweep, id: nat, now: int)
    requires id in view.runs && view.runs[id].jobId in view.jobs
    requires Wins(view, SweepReq(sweep, id, view.runs[id], now))
    ensures Commit(view, SweepReq(sweep, id, view.runs[id], now)).0 == EndRun(view, sweep, id, now)
  {
  }

  /** A sweep's transaction when its UPDATE matches, in full. */
  lemma SweptCommit(db: Store, sweep: Sweep, req: Request)
    requires (if sweep.Timeouts? then req.TimeoutReq? else req.StuckReq?) && Wins(db, req)
    requires db.runs[req.runId].jobId in db.jobs
    ensures
      var run := db.runs[req.runId];
      && Written(run, req).jobId == run.jobId
      && Commit(db, req).0 ==
         db.(runs := db.runs[req.runId := Written(run, req)],
             jobs := db.jobs[run.jobId := db.jobs[run.jobId].(lastRunAt := Some(req.now))],
             alerts := Alerts.Raise(db.alerts, SweepAlert(sweep, run.jobId), Alerts.Critical))
  {
  }

  /** The job runs after the sweep has written the runs in `done`. */
  ghost predicate RunsSwept(before: map<nat, Run>, sweep: Sweep, now: int, done: set<nat>, after: map<nat, Run>) {
    && after.Keys == before.Keys
    && forall id | id in before :: after[id] == if id in done then Ended(sweep, before[id], now) else before[id]
  }

  ghost predicate JobSwept(runs: map<nat, Run>, done: set<nat>, jobId: nat) {
    exists id :: id in done && id in runs && runs[id].jobId == jobId
  }

  /** The backup jobs after it: last_run_at of the jobs concerned, nothing else. */
  ghost predicate JobsSwept(before: Store, now: int, done: set<nat>, after: map<nat, Job>) {
    && after.Keys == before.jobs.Keys
    && forall j | j in before.jobs ::
         after[j] == if JobSwept(before.runs, done, j) then before.jobs[j].(lastRunAt := Some(now)) else before.jobs[j]
  }

  /** The swept runs whose job had no ACTIVE alert of the sweep's type. */
  ghost function Unalerted(db: Store, sweep: Sweep, done: set<nat>): set<nat> {
    set id | id in done && id in db.runs && !Alerts.HasActive(db.alerts, SweepAlert(sweep, db.runs[id].jobId))
  }

  ghost predicate SweptKey(before: Store, sweep: Sweep, done: set<nat>, key: Alerts.Key) {
    exists id :: id in done && id in before.runs && key == SweepAlert(sweep, before.runs[id].jobId)
  }

  /** The alerts after the sweep has written the runs in `done`. */
  ghost predicate SweptAlerts(before: Store, sweep: Sweep, done: set<nat>, rows: seq<Alerts.Alert>) {
    && Alerts.Valid(rows)
    && |rows| - |before.alerts| == |Unalerted(before, sweep, done)|
    && before.alerts <= rows
    && (forall i | |before.alerts| <= i < |rows| :: rows[i].severity == Alerts.Critical)
    && forall key :: Alerts.HasActive(rows, key) <==>
         Alerts.HasActive(before.alerts, key) || SweptKey(before, sweep, done, key)
  }

  /** A sweep of `before` that has written the runs in `done`. */
  ghost predicate SweptTo(before: Store, sweep: Sweep, now: int, done: set<nat>, after: Store) {
    && after.nextJobId == before.nextJobId && after.nextRunId == before.nextRunId
    && RunsSwept(before.runs, sweep, now, done, after.runs)
    && JobsSwept(before, now, done, after.jobs)
    && SweptAlerts(before, sweep, done, after.alerts)
  }

  lemma NothingSweptYet(before: Store, sweep: Sweep, now: int)
    requires Alerts.Valid(before.alerts)
    ensures SweptTo(before, sweep, now, {}, before)
  {
    assert Unalerted(before, sweep, {}) == {};
  }

  lemma SweptKeys(before: Store, sweep: Sweep, done: set<nat>, id: nat, key: Alerts.Key)
    requires id in before.runs
    ensures SweptKey(before, sweep, done + {id}, key) <==>
            SweptKey(before, sweep, done, key) || key == SweepAlert(sweep, before.runs[id].jobId)
  {
    if SweptKey(before, sweep, done, key) {
      var k :| k in done && k in before.runs && key == SweepAlert(sweep, before.runs[k].jobId);
      assert k in done + {id};
    }
    assert id in done + {id};
  }

  /** The run is the only one of its job among those swept so far. */
  ghost predicate NewJob(before: Store, done: set<nat>, id: nat) {
    id in before.runs && id !in done && !JobSwept(before.runs, done, before.runs[id].jobId)
  }

  /** A sweep never selects two runs of one job. */
  lemma OneSelectedPerJob(before: Store, sweep: Sweep, now: int, done: set<nat>, id: nat)
    requires OnlyNewestActive(before.runs) && done <= Selected(before, sweep, now)
    requires id in Selected(before, sweep, now) && id !in done
    ensures NewJob(before, done, id)
  {
  }

  ghost predicate AllUnalerted(db: Store, sweep: Sweep, ids: set<nat>) {
    forall id :: id in ids && id in db.runs ==> !Alerts.HasActive(db.alerts, SweepAlert(sweep, db.runs[id].jobId))
  }

  /** The returned count falls short of the runs marked exactly when some marked run's
      job already had the alert. */
  lemma UncountedRuns(db: Store, sweep: Sweep, ids: set<nat>)
    requires ids <= db.runs.Keys
    ensures |Unalerted(db, sweep, ids)| <= |ids|
    ensures |Unalerted(db, sweep, ids)| == |ids| <==> AllUnalerted(db, sweep, ids)
  {
    SubsetSize(Unalerted(db, sweep, ids), ids);
    if AllUnalerted(db, sweep, ids) {
      assert Unalerted(db, sweep, ids) == ids;
    }
    if Unalerted(db, sweep, ids) == ids {
      forall id | id in ids
        ensures !Alerts.HasActive(db.alerts, SweepAlert(sweep, db.runs[id].jobId))
      {
        assert id in Unalerted(db, sweep, ids);
      }
    }
  }

  lemma UnalertedStep(before: Store, sweep: Sweep, done: set<nat>, id: nat)
    requires id in before.runs && id !in done
    ensures
      var key := SweepAlert(sweep, before.runs[id].jobId);
      |Unalerted(before, sweep, done + {id})| ==
      |Unalerted(before, sweep, done)| + (if Alerts.HasActive(before.alerts, key) then 0 else 1)
  {
    var key := SweepAlert(sweep, before.runs[id].jobId);
    var was := Unalerted(before, sweep, done);
    assert id !in was;
    if Alerts.HasActive(before.alerts, key) {
      assert Unalerted(before, sweep, done + {id}) == was;
    } else {
      assert Unalerted(before, sweep, done + {id}) == was + {id};
    }
  }

  lemma SweepStepAlerts(before: Store, sweep: Sweep, done: set<nat>, id: nat,
                        rows: seq<Alerts.Alert>, raised: seq<Alerts.Alert>)
    requires NewJob(before, done, id) && SweptAlerts(before, sweep, done, rows)
    requires raised == Alerts.Raise(rows, SweepAlert(sweep, before.runs[id].jobId), Alerts.Critical)
    ensures SweptAlerts(before, sweep, done + {id}, raised)
  {
    var key := SweepAlert(sweep, before.runs[id].jobId);
    assert |raised| - |before.alerts| == |Unalerted(before, sweep, done + {id})| by {
      assert !SweptKey(before, sweep, done, key);
      UnalertedStep(before, sweep, done, id);
    }
    Alerts.RaiseEffect(rows, key, Alerts.Critical);
    forall k
      ensures Alerts.HasActive(raised, k) <==>
              Alerts.HasActive(before.alerts, k) || SweptKey(before, sweep, done + {id}, k)
    {
      SweptKeys(before, sweep, done, id, k);
    }
  }

  lemma SweepStepJobs(before: Store, now: int, done: set<nat>, id: nat, jobs: map<nat, Job>)
    requires NewJob(before, done, id) && before.runs[id].jobId in before.jobs
    requires JobsSwept(before, now, done, jobs)
    ensures
      var j := before.runs[id].jobId;
      JobsSwept(before, now, done + {id}, jobs[j := jobs[j].(lastRunAt := Some(now))])
  {
    var j := before.runs[id].jobId;
    forall k
      ensures JobSwept(before.runs, done + {id}, k) <==> JobSwept(before.runs, done, k) || k == j
    {
      if JobSwept(before.runs, done, k) {
        var r :| r in done && r in before.runs && before.runs[r].jobId == k;
        assert r in done + {id};
      }
      assert id in done + {id};
    }
  }

  lemma SweepStep(before: Store, sweep: Sweep, now: int, done: set<nat>, id: nat, view: Store)
    requires NewJob(before, done, id) && before.runs[id].jobId in before.jobs
    requires SweptTo(before, sweep, now, done, view)
    ensures view.runs.Keys == before.runs.Keys && view.runs[id] == before.runs[id] && view.runs[id].jobId in view.jobs
    ensures SweptTo(before, sweep, now, done + {id}, EndRun(view, sweep, id, now))
  {
    assert view.runs.Keys == before.runs.Keys;
    assert view.runs[id] == before.runs[id];
    SweepStepAlerts(before, sweep, done, id, view.alerts,
                    Alerts.Raise(view.alerts, SweepAlert(sweep, before.runs[id].jobId), Alerts.Critical));
    SweepStepJobs(before, now, done, id, view.jobs);
  }

  /** The sweep of `before` run over these ids, one guarded UPDATE after the other. */
  ghost function SweepOver(before: Store, sweep: Sweep, now: int, order: seq<nat>): Store {
    if order == [] then before
    else
      var id := order[|order| - 1];
      var view := SweepOver(before, sweep, now, order[..|order| - 1]);
      if id in view.runs && view.runs[id].jobId in view.jobs then EndRun(view, sweep, id, now) else view
  }

  ghost predicate Distinct(s: seq<nat>) {
    forall i: nat, k: nat :: i < k < |s| ==> s[i] != s[k]
  }

  /** The runs to end, each once, in whatever order they come. */
  ghost predicate Listed(db: Store, sweep: Sweep, now: int, rows: seq<nat>) {
    && (forall id :: id in rows <==> id in Selected(db, sweep, now))
    && Distinct(rows)
  }

  ghost function Visited(order: seq<nat>): set<nat> { set id | id in order }

  lemma VisitedStep(order: seq<nat>, id: nat)
    requires id !in order
    ensures Visited(order + [id]) == Visited(order) + {id}
    ensures |Visited(order + [id])| == |Visited(order)| + 1
  {
  }

  lemma {:induction false} VisitedSize(rows: seq<nat>)
    requires Distinct(rows)
    ensures |Visited(rows)| == |rows|
  {
    if rows != [] {
      var n := |rows| - 1;
      VisitedSize(rows[..n]);
      assert rows == rows[..n] + [rows[n]];
      VisitedStep(rows[..n], rows[n]);
    }
  }

  lemma VisitStep(before: Store, sweep: Sweep, now: int, earlier: seq<nat>, id: nat, view: Store)
    requires OnlyNewestActive(before.runs) && References(before)
    requires forall k :: k in earlier ==> k in Selected(before, sweep, now)
    requires SweptTo(before, sweep, now, Visited(earlier), view)
    requires id in Selected(before, sweep, now) && id !in earlier
    ensures id in view.runs && view.runs[id] == before.runs[id] && view.runs[id].jobId in view.jobs
    ensures SweptTo(before, sweep, now, Visited(earlier + [id]), EndRun(view, sweep, id, now))
  {
    OneSelectedPerJob(before, sweep, now, Visited(earlier), id);
    SweepStep(before, sweep, now, Visited(earlier), id, view);
    VisitedStep(earlier, id);
  }

  lemma ListedPrefix(db: Store, sweep: Sweep, now: int, rows: seq<nat>, n: nat)
    requires Listed(db, sweep, now, rows) && n < |rows|
    ensures rows[n] in Selected(db, sweep, now) && rows[n] !in rows[..n]
    ensures forall k :: k in rows[..n] ==> k in Selected(db, sweep, now)
  {
  }

  lemma SweepOverNext(before: Store, sweep: Sweep, now: int, rows: seq<nat>, n: nat)
    requires n < |rows|
    ensures rows[..n + 1] == rows[..n] + [rows[n]]
    ensures
      var view := SweepOver(before, sweep, now, rows[..n]);
      rows[n] in view.runs && view.runs[rows[n]].jobId in view.jobs ==>
        SweepOver(before, sweep, now, rows[..n + 1]) == EndRun(view, sweep, rows[n], now)
  {
    assert rows[..n + 1][..n] == rows[..n];
  }

  lemma SweptToNext(before: Store, sweep: Sweep, now: int, rows: seq<nat>, n: nat)
    requires OnlyNewestActive(before.runs) && References(before) && Alerts.Valid(before.alerts)
    requires Listed(before, sweep, now, rows) && n < |rows|
    requires SweptTo(before, sweep, now, Visited(rows[..n]), SweepOver(before, sweep, now, rows[..n]))
    ensures SweptTo(before, sweep, now, Visited(rows[..n + 1]), SweepOver(before, sweep, now, rows[..n + 1]))
  {
    var id := rows[n];
    var view := SweepOver(before, sweep, now, rows[..n]);
    ListedPrefix(before, sweep, now, rows, n);
    VisitStep(before, sweep, now, rows[..n], id, view);
    SweepOverNext(before, sweep, now, rows, n);
  }

  /** After the first n rows of the list exactly those runs are swept. */
  lemma {:induction false} SweepOverIsSweptTo(before: Store, sweep: Sweep, now: int, rows: seq<nat>, n: nat)
    requires OnlyNewestActive(before.runs) && References(before) && Alerts.Valid(before.alerts)
    requires Listed(before, sweep, now, rows) && n <= |rows|
    ensures SweptTo(before, sweep, now, Visited(rows[..n]), SweepOver(before, sweep, now, rows[..n]))
  {
    if n == 0 {
      NothingSweptYet(before, sweep, now);
      assert Visited(rows[..n]) == {};
    } else {
      SweepOverIsSweptTo(before, sweep, now, rows, n - 1);
      SweptToNext(before, sweep, now, rows, n - 1);
    }
  }

  /** The next row of the query is still there, its job too, and as it was selected. */
  lemma NextRowWins(before: Store, sweep: Sweep, now: int, rows: seq<nat>, n: nat)
    requires OnlyNewestActive(before.runs) && References(before) && Alerts.Valid(before.alerts)
    requires Listed(before, sweep, now, rows) && n < |rows|
    ensures
      var view := SweepOver(before, sweep, now, rows[..n]);
      var id := rows[n];
      && id in before.runs && id in view.runs && view.runs[id] == before.runs[id] && view.runs[id].jobId in view.jobs
      && Alerts.Valid(view.alerts)
      && Wins(view, SweepReq(sweep, id, before.runs[id], now))
      && SweepOver(before, sweep, now, rows[..n + 1]) == Commit(view, SweepReq(sweep, id, before.runs[id], now)).0
  {
    var view := SweepOver(before, sweep, now, rows[..n]);
    var id := rows[n];
    assert id in Selected(before, sweep, now);
    assert id in view.runs && view.runs[id] == before.runs[id]
           && view.runs[id].jobId in view.jobs && Alerts.Valid(view.alerts) by {
      SweepOverIsSweptTo(before, sweep, now, rows, n);
      VisitStep(before, sweep, now, rows[..n], id, view);
    }
    assert rows[..n + 1][..n] == rows[..n];
    EndRunIsCommit(view, sweep, id, now);
  }

  lemma SweepEnds(before: Store, sweep: Sweep, now: int, rows: seq<nat>)
    requires OnlyNewestActive(before.runs) && References(before) && Alerts.Valid(before.alerts)
    requires Listed(before, sweep, now, rows)
    ensures |rows| == |Selected(before, sweep, now)|
    ensures SweptTo(before, sweep, now, Selected(before, sweep, now), SweepOver(before, sweep, now, rows))
  {
    VisitedSize(rows);
    assert Visited(rows) == Selected(before, sweep, now);
    assert rows[..|rows|] == rows;
    SweepOverIsSweptTo(before, sweep, now, rows, |rows|);
  }

  // ---------------------------------------------------------------- what a whole sweep leaves

  ghost predicate JobTimesOut(db: Store, jobId: nat, now: int) {
    exists id: nat :: Effects.TimesOut(db, id, now) && db.runs[id].jobId == jobId
  }

  ghost predicate JobGetsStuck(db: Store, jobId: nat, now: int) {
    exists id: nat :: Effects.GetsStuck(db, id, now) && db.runs[id].jobId == jobId
  }

  /** Every alert inserted is a critical one, and none is lost. */
  predicate Added(before: seq<Alerts.Alert>, after: seq<Alerts.Alert>) {
    before <= after && forall i | |before| <= i < |after| :: after[i].severity == Alerts.Critical
  }

  /** Exactly the runs that ran for too long end as TIMEOUT, their jobs have run just now and
      have JOB_TIMEOUT; nothing else changes. */
  ghost predicate TimeoutsSwept(before: Store, now: int, after: Store) {
    && after == before.(runs := after.runs, jobs := after.jobs, alerts := after.alerts)
    && after.runs.Keys == before.runs.Keys && after.jobs.Keys == before.jobs.Keys
    && (forall id | id in before.runs ::
          if Effects.TimesOut(before, id, now)
          then Effects.TimedOut(before.runs[id], before.runs[id].startedAt.value, now, after.runs[id])
          else after.runs[id] == before.runs[id])
    && (forall j | j in before.jobs ::
          after.jobs[j] ==
          if JobTimesOut(before, j, now) then before.jobs[j].(lastRunAt := Some(now)) else before.jobs[j])
    && Added(before.alerts, after.alerts)
    && (forall key: Alerts.Key ::
          Alerts.HasActive(after.alerts, key) <==>
          Alerts.HasActive(before.alerts, key)
          || (key == Alerts.Key(Alerts.BackupJob, key.id, Alerts.JobTimeout) && JobTimesOut(before, key.id, now)))
  }

  /** Exactly the runs never delivered for too long end as STUCK, their jobs have run just now
      and have JOB_STUCK_PENDING; nothing else changes. */
  ghost predicate StuckSwept(before: Store, now: int, after: Store) {
    && after == before.(runs := after.runs, jobs := after.jobs, alerts := after.alerts)
    && after.runs.Keys == before.runs.Keys && after.jobs.Keys == before.jobs.Keys
    && (forall id | id in before.runs ::
          if Effects.GetsStuck(before, id, now) then Effects.MarkedStuck(before.runs[id], now, after.runs[id])
          else after.runs[id] == before.runs[id])
    && (forall j | j in before.jobs ::
          after.jobs[j] ==
          if JobGetsStuck(before, j, now) then before.jobs[j].(lastRunAt := Some(now)) else before.jobs[j])
    && Added(before.alerts, after.alerts)
    && (forall key: Alerts.Key ::
          Alerts.HasActive(after.alerts, key) <==>
          Alerts.HasActive(before.alerts, key)
          || (key == Alerts.Key(Alerts.BackupJob, key.id, Alerts.JobStuckPending) && JobGetsStuck(before, key.id, now)))
  }

  lemma SelectedMeans(db: Store, now: int)
    ensures Selected(db, Timeouts, now) == set id | id in db.runs && Effects.TimesOut(db, id, now)
    ensures Selected(db, StuckPending, now) == set id | id in db.runs && Effects.GetsStuck(db, id, now)
  {
    forall id | id in db.runs
      ensures Selects(db, Timeouts, now, db.runs[id]) <==> Effects.TimesOut(db, id, now)
      ensures Selects(db, StuckPending, now, db.runs[id]) <==> Effects.GetsStuck(db, id, now)
    {
    }
  }

  lemma EndedMeans(run: Run, now: int)
    ensures run.startedAt.Some? ==> Effects.TimedOut(run, run.startedAt.value, now, Ended(Timeouts, run, now))
    ensures Effects.MarkedStuck(run, now, Ended(StuckPending, run, now))
  {
    if run.startedAt.Some? {
      Effects.DurationMeans(run.startedAt, now);
    }
  }

  lemma TimeoutKeys(before: Store, now: int, key: Alerts.Key)
    ensures SweptKey(before, Timeouts, Selected(before, Timeouts, now), key) <==>
            key == Alerts.Key(Alerts.BackupJob, key.id, Alerts.JobTimeout) && JobTimesOut(before, key.id, now)
    ensures forall j :: JobSwept(before.runs, Selected(before, Timeouts, now), j) <==> JobTimesOut(before, j, now)
  {
    SelectedMeans(before, now);
    assert forall id: nat :: Effects.TimesOut(before, id, now) <==> id in Selected(before, Timeouts, now);
  }

  lemma StuckKeys(before: Store, now: int, key: Alerts.Key)
    ensures SweptKey(before, StuckPending, Selected(before, StuckPending, now), key) <==>
            key == Alerts.Key(Alerts.BackupJob, key.id, Alerts.JobStuckPending) && JobGetsStuck(before, key.id, now)
    ensures forall j :: JobSwept(before.runs, Selected(before, StuckPending, now), j) <==> JobGetsStuck(before, j, now)
  {
    SelectedMeans(before, now);
    assert forall id: nat :: Effects.GetsStuck(before, id, now) <==> id in Selected(before, StuckPending, now);
  }

  lemma TimeoutsMean(before: Store, now: int, after: Store)
    requires SweptTo(before, Timeouts, now, Selected(before, Timeouts, now), after)
    ensures TimeoutsSwept(before, now, after)
    ensures Selected(before, Timeouts, now) == set id | id in before.runs && Effects.TimesOut(before, id, now)
  {
    SelectedMeans(before, now);
    forall id | id in before.runs && Effects.TimesOut(before, id, now)
      ensures Effects.TimedOut(before.runs[id], before.runs[id].startedAt.value, now, after.runs[id])
    {
      EndedMeans(before.runs[id], now);
    }
    forall key: Alerts.Key
      ensures SweptKey(before, Timeouts, Selected(before, Timeouts, now), key) <==>
              key == Alerts.Key(Alerts.BackupJob, key.id, Alerts.JobTimeout) && JobTimesOut(before, key.id, now)
      ensures forall j :: JobSwept(before.runs, Selected(before, Timeouts, now), j) <==> JobTimesOut(before, j, now)
    {
      TimeoutKeys(before, now, key);
    }
  }

  lemma StuckMeans(before: Store, now: int, after: Store)
    requires SweptTo(before, StuckPending, now, Selected(before, StuckPending, now), after)
    ensures StuckSwept(before, now, after)
  {
    SelectedMeans(before, now);
    forall id | id in before.runs && Effects.GetsStuck(before, id, now)
      ensures Effects.MarkedStuck(before.runs[id], now, after.runs[id])
    {
      EndedMeans(before.runs[id], now);
    }
    forall key: Alerts.Key
      ensures SweptKey(before, StuckPending, Selected(before, StuckPending, now), key) <==>
              key == Alerts.Key(Alerts.BackupJob, key.id, Alerts.JobStuckPending) && JobGetsStuck(before, key.id, now)
      ensures forall j ::
                JobSwept(before.runs, Selected(before, StuckPending, now), j) <==> JobGetsStuck(before, j, now)
    {
      StuckKeys(before, now, key);
    }
  }

  // ---------------------------------------------------------------- the SELECT and the tests after it

  /** The WHERE clause and the JOIN of the sweep's SELECT. */
  predicate Where(db: Store, sweep: Sweep, run: Run) {
    && run.jobId in db.jobs
    && if sweep.Timeouts? then run.status == RUNNING && db.jobs[run.jobId].maxDurationMinutes.Some?
       else run.status == PENDING && run.dispatchedAt == None
  }

  /** The rows of the SELECT, in whatever order they come. */
  ghost predicate QueryResult(db: Store, sweep: Sweep, rows: seq<nat>) {
    && (forall id :: id in rows <==> id in db.runs && Where(db, sweep, db.runs[id]))
    && Distinct(rows)
  }

  /** What the tests in the loop let through: a started run beyond its duration, an
      undispatched one beyond its grace. */
  function Passed(db: Store, sweep: Sweep, now: int, rows: seq<nat>): seq<nat> {
    if rows == [] then []
    else
      var id := rows[|rows| - 1];
      var earlier := Passed(db, sweep, now, rows[..|rows| - 1]);
      if id in Selected(db, sweep, now) then earlier + [id] else earlier
  }

  lemma PassedNext(db: Store, sweep: Sweep, now: int, rows: seq<nat>, i: nat)
    requires i < |rows|
    ensures Passed(db, sweep, now, rows[..i + 1]) ==
            if rows[i] in Selected(db, sweep, now) then Passed(db, sweep, now, rows[..i]) + [rows[i]]
            else Passed(db, sweep, now, rows[..i])
  {
    assert rows[..i + 1][..i] == rows[..i];
  }

  lemma DistinctNext(s: seq<nat>, id: nat)
    requires id !in s && Distinct(s)
    ensures Distinct(s + [id])
    ensures forall k :: k in s + [id] <==> k in s || k == id
  {
  }

  lemma {:induction false} PassedOk(db: Store, sweep: Sweep, now: int, rows: seq<nat>)
    requires Distinct(rows)
    ensures forall id :: id in Passed(db, sweep, now, rows) <==> id in rows && id in Selected(db, sweep, now)
    ensures Distinct(Passed(db, sweep, now, rows))
  {
    if rows != [] {
      var n := |rows| - 1;
      PassedOk(db, sweep, now, rows[..n]);
      assert rows == rows[..n] + [rows[n]] && rows[n] !in rows[..n];
      var earlier := Passed(db, sweep, now, rows[..n]);
      assert rows[n] !in earlier;
      DistinctNext(earlier, rows[n]);
    }
  }

  lemma {:induction false} PassedPrefix(db: Store, sweep: Sweep, now: int, rows: seq<nat>, i: nat)
    requires i <= |rows|
    ensures Passed(db, sweep, now, rows[..i]) <= Passed(db, sweep, now, rows)
    decreases |rows| - i
  {
    if i == |rows| {
      assert rows[..i] == rows;
    } else {
      PassedNext(db, sweep, now, rows, i);
      PassedPrefix(db, sweep, now, rows, i + 1);
    }
  }

  /** Every selected run is in the query, so what passes the tests is exactly the runs to end. */
  lemma QueryThenTests(db: Store, sweep: Sweep, now: int, rows: seq<nat>)
    requires QueryResult(db, sweep, rows)
    ensures Listed(db, sweep, now, Passed(db, sweep, now, rows))
  {
    PassedOk(db, sweep, now, rows);
  }

  /** The next row that passes is still there, its job too, and as it was fetched. */
  lemma NextPassedWins(before: Store, sweep: Sweep, now: int, rows: seq<nat>, i: nat)
    requires OnlyNewestActive(before.runs) && References(before) && Alerts.Valid(before.alerts)
    requires QueryResult(before, sweep, rows) && i < |rows| && rows[i] in Selected(before, sweep, now)
    ensures
      var view := SweepOver(before, sweep, now, Passed(before, sweep, now, rows[..i]));
      var id := rows[i];
      && id in before.runs && id in view.runs && view.runs[id].jobId in view.jobs
      && Alerts.Valid(view.alerts) && Wins(view, SweepReq(sweep, id, before.runs[id], now))
      && SweepOver(before, sweep, now, Passed(before, sweep, now, rows[..i + 1])) ==
         Commit(view, SweepReq(sweep, id, before.runs[id], now)).0
  {
    var passed := Passed(before, sweep, now, rows);
    var n := |Passed(before, sweep, now, rows[..i])|;
    QueryThenTests(before, sweep, now, rows);
    PassedNext(before, sweep, now, rows, i);
    PassedPrefix(before, sweep, now, rows, i);
    PassedPrefix(before, sweep, now, rows, i + 1);
    assert passed[..n] == Passed(before, sweep, now, rows[..i]);
    assert passed[..n + 1] == Passed(before, sweep, now, rows[..i + 1]) && passed[n] == rows[i];
    NextRowWins(before, sweep, now, passed, n);
  }

  class Backend {
    var jobs: map<nat, Job>
    var runs: map<nat, Run>
    var nextJobId: nat
    var nextRunId: nat
    const alerts: AlertTable.Table

    constructor ()
      ensures fresh(alerts) && View() == EMPTY_STORE
    {
      jobs, runs, nextJobId, nextRunId := map[], map[], 0, 0;
      alerts := new AlertTable.Table();
    }

    function View(): Store
      reads this, alerts
    {
      Store(jobs, runs, nextJobId, nextRunId, alerts.rows)
    }

    /** POST /api/job-runs. The partial unique index refuses a second active run. */
    method CreateJobRun(jobId: nat, trigger: Trigger, now: int) returns (outcome: Outcome)
      modifies this
      ensures (View(), outcome) == CreateRun(old(View()), jobId, trigger, now)
      ensures Effects.CreateAnswer(old(View()), jobId, trigger, now, View(), outcome)
    {
      Effects.CreateAnswers(View(), jobId, trigger, now);
      if jobId !in jobs {
        return Rejected(404);
      }
      var job := jobs[jobId];
      if !job.enabled {
        return Rejected(409);
      }
      if trigger == Manual && job.mode == WATCH {
        return Rejected(409);
      }
      var dispatchedAt := if trigger == Scheduler || trigger == Watcher then Some(now) else None;
      var run := Run(jobId, PENDING, trigger, now, None, None, dispatchedAt, None, None, None, None, map[]);
      if exists id :: id in runs && runs[id].jobId == jobId && runs[id].Active() {
        return Rejected(409);
      }
      runs := runs[nextRunId := run];
      nextRunId := nextRunId + 1;
      return Accepted;
    }

    /** PATCH after its read: no field set means no UPDATE at all. */
    method CommitUpdate(req: Request) returns (outcome: Outcome)
      requires req.PatchReq?
      modifies this`runs
      ensures (View(), outcome) == Commit(old(View()), req)
      ensures Effects.PatchDone(old(View()), req.runId, req.patch, req.expected, View(), outcome)
    {
      Effects.PatchWrites(View(), req);
      var patch := req.patch;
      if patch.status.Unset? && patch.startedAt.Unset? && patch.finishedAt.Unset? && patch.details == map[] {
        return Accepted;
      }
      if patch.status.Null? || (VerificationStatus in patch.details && patch.details[VerificationStatus] == None) {
        return Rejected(409);
      }
      if req.runId !in runs || runs[req.runId].status != req.expected {
        return Rejected(409);
      }
      var run := runs[req.runId];
      if patch.status.Set? {
        run := run.(status := patch.status.value);
      }
      run := run.(startedAt := patch.startedAt.Over(run.startedAt), finishedAt := patch.finishedAt.Over(run.finishedAt),
                  details := run.details + patch.details);
      runs := runs[req.runId := run];
      return Accepted;
    }

    /** The acknowledgement the "already finished" branches make before their 409. */
    method AutoAcknowledgeCancelled(req: Request) returns (outcome: Outcome)
      requires req.AcknowledgeReq?
      modifies this`runs
      ensures (View(), outcome) == Commit(old(View()), req)
      ensures outcome == Rejected(409) && Effects.AcknowledgeDone(old(View()), req.runId, req.now, View())
    {
      Effects.AcknowledgeWrites(View(), req);
      if req.runId in runs && runs[req.runId].status == CANCELLED && runs[req.runId].cancelAcknowledgedAt == None {
        runs := runs[req.runId := runs[req.runId].(cancelAcknowledgedAt := Some(req.now))];
      }
      return Rejected(409);
    }

    /** int(timedelta.total_seconds()), from the started_at of the handler's read. */
    method DurationSeconds(startedAt: Option<int>, finishedAt: int) returns (seconds: Option<int>)
      ensures seconds == Duration(startedAt, finishedAt)
      ensures startedAt.Some? ==>
                seconds.Some? && -1_000_000 < finishedAt - startedAt.value - seconds.value * 1_000_000 < 1_000_000
    {
      if startedAt == None {
        return None;
      }
      var micros := finishedAt - startedAt.value;
      if micros >= 0 {
        return Some(micros / 1_000_000);
      } else {
        return Some(-(-micros / 1_000_000));
      }
    }

    method CommitCompletion(req: Request) returns (outcome: Outcome)
      requires req.CompleteReq? && Completes(req.completion.status) && Alerts.Valid(alerts.rows)
      requires References(View())
      modifies this, alerts
      ensures (View(), outcome) == Commit(old(View()), req)
      ensures Effects.CompletionDone(old(View()), req.runId, req.completion, req.expected, req.startedAt,
                                     req.finishedAt, View(), outcome)
      ensures Alerts.Valid(alerts.rows)
    {
      Effects.CompletionWrites(View(), req);
      var completion := req.completion;
      if VerificationStatus in completion.details && completion.details[VerificationStatus] == None {
        return Rejected(409);
      }
      var durationSeconds := DurationSeconds(req.startedAt, req.finishedAt);
      if req.runId !in runs || runs[req.runId].status != req.expected {
        return Rejected(409);
      }
      var run := runs[req.runId];
      runs := runs[req.runId := run.(status := completion.status, finishedAt := Some(req.finishedAt),
                                     durationSeconds := durationSeconds, details := run.details + completion.details)];
      jobs := jobs[run.jobId := jobs[run.jobId].(lastRunAt := Some(req.finishedAt))];
      ReportOutcome(run.jobId, completion.status);
      return Accepted;
    }

    /** JOB_FAILED is about the job, not the run. */
    method ReportOutcome(jobId: nat, status: Status)
      requires Completes(status) && Alerts.Valid(alerts.rows)
      modifies alerts
      ensures Alerts.Valid(alerts.rows) && Effects.FailureReported(old(alerts.rows), jobId, status, alerts.rows)
      ensures forall req: Request | req.CompleteReq? && req.completion.status == status ::
                alerts.rows == AlertsAfter(old(alerts.rows), jobId, req)
    {
      Alerts.RaiseMeans(alerts.rows, Alerts.Key(Alerts.BackupJob, jobId, Alerts.JobFailed), Alerts.Critical);
      Alerts.ResolveMeans(alerts.rows, Alerts.Key(Alerts.BackupJob, jobId, Alerts.JobFailed), None, Alerts.Critical);
      if status == FAILED {
        var _ := alerts.RaiseAlertIfAbsent(JobAlert(jobId, Alerts.JobFailed), Alerts.Critical);
      } else if status == SUCCESS || status == WARNING {
        var _ := alerts.ResolveActiveAlert(JobAlert(jobId, Alerts.JobFailed), None);
      }
    }

    method CommitClaim(req: Request) returns (outcome: Outcome)
      requires req.ClaimReq?
      modifies this`runs
      ensures (View(), outcome) == Commit(old(View()), req)
      ensures Effects.ClaimDone(old(View()), req.runId, req.now, View(), outcome)
    {
      Effects.ClaimWrites(View(), req);
      if req.runId !in runs {
        return Rejected(409);
      }
      var run := runs[req.runId];
      if run.status != PENDING || run.dispatchedAt.Some? || run.trigger != Manual {
        return Rejected(409);
      }
      runs := runs[req.runId := run.(dispatchedAt := Some(req.now))];
      return Accepted;
    }

    method CommitCancel(req: Request) returns (outcome: Outcome)
      requires req.CancelReq? && References(View())
      modifies this`runs, this`jobs
      ensures (View(), outcome) == Commit(old(View()), req)
      ensures Effects.CancelDone(old(View()), req.runId, req.username, req.startedAt, req.now, View(), outcome)
    {
      Effects.CancelWrites(View(), req);
      var durationSeconds := DurationSeconds(req.startedAt, req.now);
      if req.runId !in runs || (runs[req.runId].status != PENDING && runs[req.runId].status != RUNNING) {
        return Rejected(409);
      }
      var run := runs[req.runId];
      var message := Some("Cancelled by operator " + req.username);
      runs := runs[req.runId := run.(
        status := CANCELLED, finishedAt := Some(req.now), durationSeconds := durationSeconds,
                                     cancelRequestedAt := Some(req.now), cancelRequestedBy := Some(req.username),
                                     details := run.details[ErrorMessage := message])];
      jobs := jobs[run.jobId := jobs[run.jobId].(lastRunAt := Some(req.now))];
      return Accepted;
    }

    // The handlers from their first line, when nothing interrupts them.

    method UpdateJobRun(runId: nat, patch: Patch, now: int) returns (outcome: Outcome)
      modifies this`runs
      ensures (View(), outcome) == Atomic(old(View()), PatchCall(runId, patch), now)
      ensures Effects.PatchAnswer(old(View()), runId, patch, now, View(), outcome)
    {
      Effects.PatchAnswers(View(), runId, patch, now);
      if runId !in runs {
        return Rejected(404);
      }
      var expectedStatus := runs[runId].status;
      if expectedStatus != PENDING && expectedStatus != RUNNING {
        outcome := AutoAcknowledgeCancelled(AcknowledgeReq(runId, now));
        return;
      }
      if patch.status.Set? && Terminal(patch.status.value) {
        return Rejected(422);
      }
      outcome := CommitUpdate(PatchReq(runId, patch, expectedStatus));
    }

    method CompleteJobRun(runId: nat, completion: Completion, now: int) returns (outcome: Outcome)
      requires Alerts.Valid(alerts.rows) && References(View())
      modifies this, alerts
      ensures (View(), outcome) == Atomic(old(View()), CompleteCall(runId, completion), now)
      ensures Effects.CompletionAnswer(old(View()), runId, completion, now, View(), outcome)
    {
      Effects.CompletionAnswers(View(), runId, completion, now);
      var status := completion.status;
      if status != SUCCESS && status != WARNING && status != FAILED && status != CANCELLED {
        return Rejected(422);
      }
      if runId !in runs {
        return Rejected(404);
      }
      var run := runs[runId];
      if run.status != PENDING && run.status != RUNNING {
        outcome := AutoAcknowledgeCancelled(AcknowledgeReq(runId, now));
        return;
      }
      var finishedAt := if completion.finishedAt.Some? then completion.finishedAt.value else now;
      outcome := CommitCompletion(CompleteReq(runId, completion, run.status, run.startedAt, finishedAt));
    }

    method ClaimJobRun(runId: nat, now: int) returns (outcome: Outcome)
      modifies this`runs
      ensures (View(), outcome) == Atomic(old(View()), ClaimCall(runId), now)
      ensures if runId !in old(runs) then outcome == Rejected(404) && View() == old(View())
              else Effects.ClaimDone(old(View()), runId, now, View(), outcome)
    {
      Effects.ClaimAnswers(View(), runId, now);
      if runId !in runs {
        return Rejected(404);
      }
      outcome := CommitClaim(ClaimReq(runId, now));
    }

    method CancelJobRun(runId: nat, username: string, now: int) returns (outcome: Outcome)
      requires References(View())
      modifies this`runs, this`jobs
      ensures (View(), outcome) == Atomic(old(View()), CancelCall(runId, username), now)
      ensures if runId !in old(runs) then outcome == Rejected(404) && View() == old(View())
              else Effects.CancelDone(old(View()), runId, username, old(runs)[runId].startedAt, now, View(), outcome)
    {
      Effects.CancelAnswers(View(), runId, username, now);
      if runId !in runs {
        return Rejected(404);
      }
      outcome := CommitCancel(CancelReq(runId, username, runs[runId].startedAt, now));
    }

    /** The guarded UPDATE of a sweep. */
    method EndSwept(sweep: Sweep, req: Request) returns (rowcount: nat)
      requires if sweep.Timeouts? then req.TimeoutReq? else req.StuckReq?
      modifies this`runs
      ensures rowcount == if req.runId in old(runs) && Guard(old(runs)[req.runId], req) then 1 else 0
      ensures runs == if rowcount == 1 then old(runs)[req.runId := Written(old(runs)[req.runId], req)] else old(runs)
    {
      if req.runId !in runs {
        return 0;
      }
      var run := runs[req.runId];
      match sweep {
        case Timeouts =>
          if run.status != RUNNING {
            return 0;
          }
          var durationSeconds := DurationSeconds(Some(req.since), req.now);
          run := run.(status := TIMEOUT, finishedAt := Some(req.now), durationSeconds := durationSeconds,
                      details := run.details[ErrorMessage := Some("timeout")]);
        case StuckPending =>
          if run.status != PENDING || run.dispatchedAt.Some? {
            return 0;
          }
          run := run.(status := STUCK, finishedAt := Some(req.now), cancelRequestedAt := Some(req.now),
                      cancelRequestedBy := Some("system:stuck_pending_detector"), cancelAcknowledgedAt := Some(req.now),
                      details := run.details[ErrorMessage := Some("stuck")]);
      }
      runs := runs[req.runId := run];
      return 1;
    }

    /** One row of a sweep: a lost race is skipped silently. */
    method CommitSweptRun(sweep: Sweep, req: Request) returns (finished: bool, newAlert: bool)
      requires (if sweep.Timeouts? then req.TimeoutReq? else req.StuckReq?) && Alerts.Valid(alerts.rows)
      requires req.runId in runs ==> runs[req.runId].jobId in jobs
      modifies this`runs, this`jobs, alerts
      ensures View() == Commit(old(View()), req).0 && Alerts.Valid(alerts.rows)
      ensures finished <==> Wins(old(View()), req)
      ensures |alerts.rows| == |old(alerts.rows)| + (if newAlert then 1 else 0)
    {
      var rowcount := EndSwept(sweep, req);
      if rowcount == 0 {
        return false, false;
      }
      SweptCommit(old(View()), sweep, req);
      var run := runs[req.runId];
      jobs := jobs[run.jobId := jobs[run.jobId].(lastRunAt := Some(req.now))];
      var key := SweepAlert(sweep, run.jobId);
      var alreadyActive := alerts.GetActiveAlert(key);
      var raised := alerts.RaiseAlertIfAbsent(key, Alerts.Critical);
      return true, raised.Some? && alreadyActive.NoRow?;
    }

    /** The tests on one fetched row: has it been RUNNING, or PENDING, for too long? */
    method TooLong(sweep: Sweep, run: Run, job: Job, now: int) returns (tooLong: bool)
      requires sweep.Timeouts? ==> job.maxDurationMinutes.Some?
      ensures forall db: Store | run.jobId in db.jobs && db.jobs[run.jobId] == job && Where(db, sweep, run) ::
                tooLong <==> Selects(db, sweep, now, run)
    {
      match sweep
      case Timeouts =>
        if run.startedAt == None {
          return false;
        }
        var elapsed := now - run.startedAt.value;
        return elapsed > job.maxDurationMinutes.value * MINUTE;
      case StuckPending =>
        var elapsed := now - run.createdAt;
        return elapsed > job.pendingGraceMinutes * MINUTE;
    }

    /** A whole sweep that nothing interrupts, over the rows of its SELECT. The runs that
        pass the tests end, one guarded UPDATE after the other, and the returned counts are
        the runs ended and the alerts newly raised. */
    method RunSweep(sweep: Sweep, now: int, rows: seq<nat>) returns (finished: nat, newAlerts: nat)
      requires References(View()) && OnlyNewestActive(runs) && Alerts.Valid(alerts.rows)
      requires QueryResult(View(), sweep, rows)
      modifies this`runs, this`jobs, alerts
      ensures View() == SweepOver(old(View()), sweep, now, Passed(old(View()), sweep, now, rows))
      ensures finished == |Passed(old(View()), sweep, now, rows)| && newAlerts == |alerts.rows| - |old(alerts.rows)|
    {
      ghost var before := View();
      var fetchedRuns, fetchedJobs := runs, jobs;
      finished, newAlerts := 0, 0;
      for i := 0 to |rows|
        invariant View() == SweepOver(before, sweep, now, Passed(before, sweep, now, rows[..i]))
        invariant finished == |Passed(before, sweep, now, rows[..i])| && newAlerts == |alerts.rows| - |before.alerts|
      {
        var id := rows[i];
        assert id in rows;
        PassedNext(before, sweep, now, rows, i);
        var run := fetchedRuns[id];
        var tooLong := TooLong(sweep, run, fetchedJobs[run.jobId], now);
        assert tooLong <==> id in Selected(before, sweep, now);
        if tooLong {
          NextPassedWins(before, sweep, now, rows, i);
          var ended, raised := CommitSweptRun(sweep, SweepReq(sweep, id, run, now));
          assert ended;
          finished := finished + 1;
          newAlerts := newAlerts + (if raised then 1 else 0);
        }
      }
      assert rows[..|rows|] == rows;
    }

    /** Returns the number of runs timed out. */
    method CheckJobTimeouts(now: int, rows: seq<nat>) returns (timedOut: nat)
      requires References(View()) && OnlyNewestActive(runs) && Alerts.Valid(alerts.rows)
      requires QueryResult(View(), Timeouts, rows)
      modifies this`runs, this`jobs, alerts
      ensures SweptTo(old(View()), Timeouts, now, Selected(old(View()), Timeouts, now), View())
      ensures timedOut == |Selected(old(View()), Timeouts, now)|
      ensures TimeoutsSwept(old(View()), now, View())
      ensures timedOut == |set id | id in old(runs) && Effects.TimesOut(old(View()), id, now)|
    {
      QueryThenTests(View(), Timeouts, now, rows);
      SweepEnds(View(), Timeouts, now, Passed(View(), Timeouts, now, rows));
      ghost var before := View();
      var newAlerts;
      timedOut, newAlerts := RunSweep(Timeouts, now, rows);
      TimeoutsMean(before, now, View());
    }

    /** Despite its docstring the returned number counts new alerts, not runs marked:
        runs of jobs whose JOB_STUCK_PENDING was already ACTIVE are marked uncounted. */
    method CheckStuckPendingDispatch(now: int, rows: seq<nat>) returns (stuckCount: nat)
      requires References(View()) && OnlyNewestActive(runs) && Alerts.Valid(alerts.rows)
      requires QueryResult(View(), StuckPending, rows)
      modifies this`runs, this`jobs, alerts
      ensures SweptTo(old(View()), StuckPending, now, Selected(old(View()), StuckPending, now), View())
      ensures stuckCount == |Unalerted(old(View()), StuckPending, Selected(old(View()), StuckPending, now))|
      ensures StuckSwept(old(View()), now, View()) && stuckCount == |alerts.rows| - |old(alerts.rows)|
    {
      QueryThenTests(View(), StuckPending, now, rows);
      SweepEnds(View(), StuckPending, now, Passed(View(), StuckPending, now, rows));
      ghost var before := View();
      var marked;
      marked, stuckCount := RunSweep(StuckPending, now, rows);
      StuckMeans(before, now, View());
    }
  }
}
