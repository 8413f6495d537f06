/** Histories of BackupJobMachine that leave an alert about its schedule on a WATCH job. */
module BackupJobExamples {
  import opened Wrappers
  import Alerts
  import JobRuns
  import MissedRuns
  import RemotePaths
  import Jobs = BackupJobs
  import opened BackupJobMachine

  // ---------------------------------------------------------------- histories that break it

  function NightlyJob(cron: string): Jobs.Job {
    Jobs.Job(0, 0, true, JobRuns.SCHEDULE, RemotePaths.FULL, Some(cron), Some("/data"),
             None, None, None, None, None, None, None, map[])
  }

  /** Moves a job from SCHEDULE to WATCH. */
  const TO_WATCH := Jobs.NO_CHANGE.(mode := Set(JobRuns.WATCH), scheduleCron := Null, sourcePath := Null,
                                    watchDirectory := Set("/watched"))

  function Created(cron: string): seq<Event> {
    [Whole(Jobs.ServerCreated(0))] + [Whole(Jobs.DiskCreated(0, 0))] + [Whole(Jobs.JobCreated(NightlyJob(cron)))]
  }

  ghost predicate OneNightlyJob(db: Jobs.Db, cron: string) {
    db.jobs == map[0 := NightlyJob(cron)] && db.activeRuns == map[] && Alerts.Valid(db.alerts)
  }

  lemma Extend(events: seq<Event>, e: Event, cronOk: string -> bool)
    ensures After(events + [e], cronOk) == Apply(After(events, cronOk), e, cronOk)
  {
    assert (events + [e])[..|events|] == events;
  }

  lemma NightlyJobExists(cron: string, cronOk: string -> bool)
    requires cron != "" && cronOk(cron)
    ensures OneNightlyJob(After(Created(cron), cronOk).db, cron) && After(Created(cron), cronOk).held == map[]
  {
    var es: seq<Event> := [Whole(Jobs.ServerCreated(0))];
    assert es[..0] == [];
    assert After(es, cronOk) == State(Jobs.EMPTY.(servers := map[0 := false]), map[]);
    Extend(es, Whole(Jobs.DiskCreated(0, 0)), cronOk);
    Extend(es + [Whole(Jobs.DiskCreated(0, 0))], Whole(Jobs.JobCreated(NightlyJob(cron))), cronOk);
    assert RemotePaths.CheckOverride(None) == None;
    assert Jobs.CreateOk(NightlyJob(cron), cronOk);
  }

  lemma MovesToWatch(db: Jobs.Db, cron: string, cronOk: string -> bool)
    requires OneNightlyJob(db, cron)
    ensures Jobs.Acceptable(db, 0, TO_WATCH, cronOk)
    ensures
      var after := Jobs.Apply(db, Jobs.JobPatched(0, TO_WATCH), cronOk);
      0 in after.jobs && after.jobs[0].mode == JobRuns.WATCH
  {
    assert RemotePaths.CheckOverride(None) == None;
    assert !Jobs.Busy(db, 0);
  }

  /** JOB_MISSED, with every handler atomic: the worker finds the job overdue, then a PATCH
      moves it to WATCH. */
  lemma PatchToWatchBreaksMissed(cron: string, cronOk: string -> bool)
    requires cron != "" && cronOk(cron)
    ensures exists events: seq<Event> :: Atomic(events) && !OnSchedule(After(events, cronOk).db, Missed)
  {
    NightlyJobExists(cron, cronOk);
    OverdueThenWatch(After(Created(cron), cronOk).db, cron, cronOk);
    var judged := AppendWhole(Created(cron), Jobs.WorkerJudged(0, MissedRuns.Overdue), cronOk);
    var moved := AppendWhole(judged, Jobs.JobPatched(0, TO_WATCH), cronOk);
  }

  lemma AppendWhole(events: seq<Event>, event: Jobs.Event, cronOk: string -> bool) returns (more: seq<Event>)
    requires Atomic(events)
    ensures Atomic(more) && After(more, cronOk).db == Jobs.Apply(After(events, cronOk).db, event, cronOk)
  {
    more := events + [Whole(event)];
    Extend(events, Whole(event), cronOk);
  }

  lemma OverdueThenWatch(db: Jobs.Db, cron: string, cronOk: string -> bool)
    requires OneNightlyJob(db, cron)
    ensures
      var judged := Jobs.Apply(db, Jobs.WorkerJudged(0, MissedRuns.Overdue), cronOk);
      !OnSchedule(Jobs.Apply(judged, Jobs.JobPatched(0, TO_WATCH), cronOk), Missed)
  {
    var judged := Jobs.Apply(db, Jobs.WorkerJudged(0, MissedRuns.Overdue), cronOk);
    assert !Jobs.Busy(db, 0);
    assert OneNightlyJob(judged, cron) && Alerts.HasActive(judged.alerts, MissedRuns.MissedKey(0)) by {
      MissedRuns.JobStepEffect(db.alerts, 0, MissedRuns.Overdue);
    }
    MovesToWatch(judged, cron, cronOk);
    PatchAlerts(judged, 0, TO_WATCH);
    assert Alerts.HasActive(Jobs.ApplyPatch(judged, 0, TO_WATCH).alerts, KeyOf(Missed, 0));
  }

  /** Either alert, by any late write that raises it: the job is checked, a PATCH moves it to
      WATCH, and then the alert is written. */
  lemma LateWriteBreaks(cron: string, late: Late, kind: Kind, cronOk: string -> bool)
    requires cron != "" && cronOk(cron) && late.id == 0 && Raises(late, kind)
    ensures exists events: seq<Event> :: !OnSchedule(After(events, cronOk).db, kind)
  {
    NightlyJobExists(cron, cronOk);
    var es := Created(cron);
    var checked := es + [Checks(0, late)];
    var moved := checked + [Whole(Jobs.JobPatched(0, TO_WATCH))];
    Extend(es, Checks(0, late), cronOk);
    Extend(checked, Whole(Jobs.JobPatched(0, TO_WATCH)), cronOk);
    Extend(moved, Writes(0), cronOk);
    CheckedThenWatch(After(es, cronOk), cron, late, kind, cronOk);
    assert !OnSchedule(After(moved + [Writes(0)], cronOk).db, kind);
  }

  lemma CheckedThenWatch(s: State, cron: string, late: Late, kind: Kind, cronOk: string -> bool)
    requires OneNightlyJob(s.db, cron) && s.held == map[] && late.id == 0 && Raises(late, kind)
    ensures
      var moved := Apply(Apply(s, Checks(0, late), cronOk), Whole(Jobs.JobPatched(0, TO_WATCH)), cronOk);
      !OnSchedule(Apply(moved, Writes(0), cronOk).db, kind)
  {
    assert !Jobs.Busy(s.db, 0);
    var moved := Jobs.Apply(s.db, Jobs.JobPatched(0, TO_WATCH), cronOk);
    MovesToWatch(s.db, cron, cronOk);
    PatchAlerts(s.db, 0, TO_WATCH);
    WriteAlerts(moved, late);
    assert Alerts.HasActive(Write(moved, late).alerts, KeyOf(kind, 0));
  }
}
