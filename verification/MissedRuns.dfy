/** Missed-run detection: check_missed_runs of app/workers/alert_worker.py and
    compute_next_scheduled_run of app/core/timeutils.py. Instants count microseconds. */
module MissedRuns {
  import opened Wrappers
  import Alerts
  import AlertTable
  import JobRuns

  datatype Job = Job(
    enabled: bool,
    mode: JobRuns.Mode,
    schedule: Option<string>,
    timezone: string,
    graceMinutes: nat,
    createdAt: int,
    lastRunAt: Option<int>)
  {
    function Anchor(): int { if lastRunAt.Some? then lastRunAt.value else createdAt }
  }

  /** The cron library and the time zone database: the next fire, a schedule that does
      not parse, or a zone that does not exist. */
  datatype Fire = Next(at: int) | CronError | ZoneError

  type Cron = (Option<string>, string, int) -> Fire

  ghost predicate StrictlyAfter(cron: Cron) {
    forall schedule, zone, after :: cron(schedule, zone, after).Next? ==> cron(schedule, zone, after).at > after
  }

  datatype Verdict = Overdue | OnTime | BadCron | BadZone

  function Judge(job: Job, cron: Cron, now: int): Verdict {
    match cron(job.schedule, job.timezone, job.Anchor())
    case CronError => BadCron
    case ZoneError => BadZone
    case Next(expected) => if now - expected > job.graceMinutes * MINUTE then Overdue else OnTime
  }

  function MissedKey(id: nat): Alerts.Key { Alerts.Key(Alerts.BackupJob, id, Alerts.JobMissed) }

  function CronKey(id: nat): Alerts.Key { Alerts.Key(Alerts.BackupJob, id, Alerts.JobCronInvalid) }

  /** What one job's verdict does to the alerts. */
  ghost function JobStep(rows: seq<Alerts.Alert>, id: nat, v: Verdict): seq<Alerts.Alert> {
    match v
    case BadZone => rows
    case BadCron => Alerts.Raise(rows, CronKey(id), Alerts.Critical)
    case Overdue => Alerts.Raise(Alerts.Resolve(rows, CronKey(id), None), MissedKey(id), Alerts.Warning)
    case OnTime => Alerts.Resolve(Alerts.Resolve(rows, CronKey(id), None), MissedKey(id), None)
  }

  /** Whether an alert is ACTIVE after a job's step. */
  ghost predicate ActiveAfter(before: bool, key: Alerts.Key, id: nat, v: Verdict) {
    if key == CronKey(id) && v != BadZone then v == BadCron
    else if key == MissedKey(id) && v.Overdue? then true
    else if key == MissedKey(id) && v.OnTime? then false
    else before
  }

  lemma JobStepEffect(rows: seq<Alerts.Alert>, id: nat, v: Verdict)
    requires Alerts.Valid(rows)
    ensures Alerts.Valid(JobStep(rows, id, v))
    ensures forall key :: Alerts.HasActive(JobStep(rows, id, v), key) <==>
                          ActiveAfter(Alerts.HasActive(rows, key), key, id, v)
  {
    var resolved := Alerts.Resolve(rows, CronKey(id), None);
    Alerts.ResolveEffect(rows, CronKey(id), None);
    match v
    case BadZone =>
    case BadCron => Alerts.RaiseEffect(rows, CronKey(id), Alerts.Critical);
    case Overdue => Alerts.RaiseEffect(resolved, MissedKey(id), Alerts.Warning);
    case OnTime => Alerts.ResolveEffect(resolved, MissedKey(id), None);
  }

  /** JOB_CRON_INVALID is critical and leaves JOB_MISSED alone; JOB_MISSED is a warning. */
  ghost predicate Stepped(rows: seq<Alerts.Alert>, id: nat, v: Verdict, after: seq<Alerts.Alert>) {
    var invalid := Alerts.Key(Alerts.BackupJob, id, Alerts.JobCronInvalid);
    var missed := Alerts.Key(Alerts.BackupJob, id, Alerts.JobMissed);
    match v
    case BadZone => after == rows
    case BadCron => Alerts.OnlyAlert(rows, invalid, true, Alerts.Critical, after)
    case _ =>
      exists resolved ::
        && Alerts.OnlyAlert(rows, invalid, false, Alerts.Critical, resolved)
        && Alerts.OnlyAlert(resolved, missed, v == Overdue, Alerts.Warning, after)
  }

  lemma JobStepMeans(rows: seq<Alerts.Alert>, id: nat, v: Verdict)
    requires Alerts.Valid(rows)
    ensures Stepped(rows, id, v, JobStep(rows, id, v))
  {
    var invalid := Alerts.Key(Alerts.BackupJob, id, Alerts.JobCronInvalid);
    var missed := Alerts.Key(Alerts.BackupJob, id, Alerts.JobMissed);
    var resolved := Alerts.Resolve(rows, invalid, None);
    Alerts.RaiseMeans(rows, invalid, Alerts.Critical);
    Alerts.ResolveMeans(rows, invalid, None, Alerts.Critical);
    Alerts.RaiseMeans(resolved, missed, Alerts.Warning);
    Alerts.ResolveMeans(resolved, missed, None, Alerts.Warning);
  }

  type Verdicts = nat -> Verdict

  /** The jobs the tick gets to: those before the first one with an unknown time zone. */
  function Reached(ids: seq<nat>, verdicts: Verdicts): (reached: seq<nat>)
    ensures reached <= ids
    ensures forall id :: id in reached ==> verdicts(id) != BadZone
  {
    if ids == [] || verdicts(ids[0]) == BadZone then []
    else
      assert ids == [ids[0]] + ids[1..];
      [ids[0]] + Reached(ids[1..], verdicts)
  }

  predicate ZonesKnown(ids: seq<nat>, verdicts: Verdicts) {
    ids == [] || (ZonesKnown(ids[..|ids| - 1], verdicts) && verdicts(ids[|ids| - 1]) != BadZone)
  }

  lemma {:induction false} ZonesKnownMeans(ids: seq<nat>, verdicts: Verdicts)
    ensures ZonesKnown(ids, verdicts) <==> forall k: nat :: k < |ids| ==> verdicts(ids[k]) != BadZone
  {
    if ids != [] {
      ZonesKnownMeans(ids[..|ids| - 1], verdicts);
    }
  }

  lemma {:induction false} ReachedIs(ids: seq<nat>, verdicts: Verdicts, n: nat)
    requires n <= |ids| && forall k: nat :: k < n ==> verdicts(ids[k]) != BadZone
    requires n < |ids| ==> verdicts(ids[n]) == BadZone
    ensures Reached(ids, verdicts) == ids[..n]
  {
    if n > 0 {
      assert forall k: nat :: k < n - 1 ==> ids[1..][k] == ids[k + 1];
      ReachedIs(ids[1..], verdicts, n - 1);
    }
  }

  ghost function StepAll(rows: seq<Alerts.Alert>, ids: seq<nat>, verdicts: Verdicts): seq<Alerts.Alert> {
    if ids == [] then rows
    else JobStep(StepAll(rows, ids[..|ids| - 1], verdicts), ids[|ids| - 1], verdicts(ids[|ids| - 1]))
  }

  lemma StepAllNext(rows: seq<Alerts.Alert>, ids: seq<nat>, i: nat, verdicts: Verdicts)
    requires i < |ids|
    ensures StepAll(rows, ids[..i + 1], verdicts) ==
            JobStep(StepAll(rows, ids[..i], verdicts), ids[i], verdicts(ids[i]))
  {
    assert ids[..i + 1][..i] == ids[..i];
  }

  /** Each job reached: JOB_CRON_INVALID is ACTIVE iff its schedule does not parse;
      JOB_MISSED is ACTIVE iff it is overdue, and left as it was when the schedule does
      not parse. No alert of any other job or type changes. */
  ghost predicate Settled(before: seq<Alerts.Alert>, ids: seq<nat>, verdicts: Verdicts, after: seq<Alerts.Alert>) {
    && Alerts.Valid(after)
    && (forall id | id in ids ::
          var invalid := Alerts.Key(Alerts.BackupJob, id, Alerts.JobCronInvalid);
          var missed := Alerts.Key(Alerts.BackupJob, id, Alerts.JobMissed);
          && (Alerts.HasActive(after, invalid) <==> verdicts(id) == BadCron)
          && (verdicts(id) != BadCron ==> (Alerts.HasActive(after, missed) <==> verdicts(id) == Overdue))
          && (verdicts(id) == BadCron ==> (Alerts.HasActive(after, missed) <==> Alerts.HasActive(before, missed))))
    && (forall key: Alerts.Key | !(key.kind == Alerts.BackupJob && key.id in ids
                       && (key.alertType == Alerts.JobMissed || key.alertType == Alerts.JobCronInvalid)) ::
          Alerts.HasActive(after, key) <==> Alerts.HasActive(before, key))
  }

  lemma {:induction false} StepAllSettles(rows: seq<Alerts.Alert>, ids: seq<nat>, verdicts: Verdicts)
    requires Alerts.Valid(rows) && forall id :: id in ids ==> verdicts(id) != BadZone
    ensures Settled(rows, ids, verdicts, StepAll(rows, ids, verdicts))
  {
    if ids != [] {
      var earlier, id := ids[..|ids| - 1], ids[|ids| - 1];
      assert ids == earlier + [id];
      StepAllSettles(rows, earlier, verdicts);
      JobStepEffect(StepAll(rows, earlier, verdicts), id, verdicts(id));
      SettledNext(rows, earlier, id, verdicts, StepAll(rows, earlier, verdicts), StepAll(rows, ids, verdicts));
    }
  }

  lemma SettledNext(before: seq<Alerts.Alert>, ids: seq<nat>, id: nat, verdicts: Verdicts,
                    rows: seq<Alerts.Alert>, after: seq<Alerts.Alert>)
    requires Settled(before, ids, verdicts, rows) && Alerts.Valid(after) && verdicts(id) != BadZone
    requires forall key ::
               Alerts.HasActive(after, key) <==> ActiveAfter(Alerts.HasActive(rows, key), key, id, verdicts(id))
    ensures Settled(before, ids + [id], verdicts, after)
  {
    forall key: Alerts.Key
      ensures Alerts.HasActive(after, key) <==> ActiveAfter(Alerts.HasActive(rows, key), key, id, verdicts(id))
    {
    }
  }

  // ---------------------------------------------------------------- what is counted

  /** The JOB_MISSED rows ever inserted. */
  function MissedRows(rows: seq<Alerts.Alert>): nat {
    if rows == [] then 0
    else MissedRows(rows[..|rows| - 1]) + if rows[|rows| - 1].alertType == Alerts.JobMissed then 1 else 0
  }

  lemma {:induction false} SameTypesSameCount(a: seq<Alerts.Alert>, b: seq<Alerts.Alert>)
    requires |a| == |b| && forall i :: 0 <= i < |a| ==> a[i].alertType == b[i].alertType
    ensures MissedRows(a) == MissedRows(b)
  {
    if a != [] {
      SameTypesSameCount(a[..|a| - 1], b[..|b| - 1]);
    }
  }

  /** The JOB_MISSED alerts one job's step newly raises. */
  ghost function StepRaises(rows: seq<Alerts.Alert>, id: nat, v: Verdict): nat {
    if v == Overdue && !Alerts.HasActive(rows, MissedKey(id)) then 1 else 0
  }

  ghost function AllRaise(rows: seq<Alerts.Alert>, ids: seq<nat>, verdicts: Verdicts): nat {
    if ids == [] then 0
    else
      var earlier, id := ids[..|ids| - 1], ids[|ids| - 1];
      AllRaise(rows, earlier, verdicts) + StepRaises(StepAll(rows, earlier, verdicts), id, verdicts(id))
  }

  lemma AllRaiseNext(rows: seq<Alerts.Alert>, ids: seq<nat>, i: nat, verdicts: Verdicts)
    requires i < |ids|
    ensures AllRaise(rows, ids[..i + 1], verdicts) ==
            AllRaise(rows, ids[..i], verdicts) + StepRaises(StepAll(rows, ids[..i], verdicts), ids[i], verdicts(ids[i]))
  {
    assert ids[..i + 1][..i] == ids[..i];
  }

  /** What the steps newly raise is what they insert. */
  lemma {:induction false} RaisedAreInserted(rows: seq<Alerts.Alert>, ids: seq<nat>, verdicts: Verdicts)
    requires Alerts.Valid(rows)
    ensures MissedRows(StepAll(rows, ids, verdicts)) == MissedRows(rows) + AllRaise(rows, ids, verdicts)
    ensures Alerts.Valid(StepAll(rows, ids, verdicts))
  {
    if ids != [] {
      var earlier, id := ids[..|ids| - 1], ids[|ids| - 1];
      RaisedAreInserted(rows, earlier, verdicts);
      StepCount(StepAll(rows, earlier, verdicts), id, verdicts(id));
      JobStepEffect(StepAll(rows, earlier, verdicts), id, verdicts(id));
    }
  }

  lemma StepCount(rows: seq<Alerts.Alert>, id: nat, v: Verdict)
    requires Alerts.Valid(rows)
    ensures MissedRows(JobStep(rows, id, v)) == MissedRows(rows) + StepRaises(rows, id, v)
  {
    var resolved := Alerts.Resolve(rows, CronKey(id), None);
    Alerts.ResolveEffect(rows, CronKey(id), None);
    SameTypesSameCount(rows, resolved);
    match v
    case BadZone =>
    case BadCron =>
      if !Alerts.HasActive(rows, CronKey(id)) {
        assert JobStep(rows, id, v)[..|rows|] == rows;
      }
    case Overdue =>
      if !Alerts.HasActive(rows, MissedKey(id)) {
        assert JobStep(rows, id, v)[..|rows|] == resolved;
      }
    case OnTime => SameTypesSameCount(resolved, Alerts.Resolve(resolved, MissedKey(id), None));
  }

  // ---------------------------------------------------------------- the next tick

  lemma ResolvingNothing(rows: seq<Alerts.Alert>, key: Alerts.Key, note: Option<string>)
    requires !Alerts.HasActive(rows, key)
    ensures Alerts.Resolve(rows, key, note) == rows
  {
    assert forall i :: 0 <= i < |rows| ==> !rows[i].Matches(key);
  }

  lemma SettledJobStaysPut(rows: seq<Alerts.Alert>, id: nat, v: Verdict)
    requires v != BadZone && (Alerts.HasActive(rows, CronKey(id)) <==> v == BadCron)
    requires v != BadCron ==> (Alerts.HasActive(rows, MissedKey(id)) <==> v == Overdue)
    ensures JobStep(rows, id, v) == rows
  {
    if v != BadCron {
      ResolvingNothing(rows, CronKey(id), None);
      if v == OnTime {
        ResolvingNothing(rows, MissedKey(id), None);
      }
    }
  }

  lemma {:induction false} SettledStaysPut(before: seq<Alerts.Alert>, settled: seq<nat>, verdicts: Verdicts,
                                           rows: seq<Alerts.Alert>, ids: seq<nat>)
    requires Settled(before, settled, verdicts, rows)
    requires forall id :: id in ids ==> id in settled && verdicts(id) != BadZone
    ensures StepAll(rows, ids, verdicts) == rows
  {
    if ids != [] {
      var n := |ids| - 1;
      assert ids[n] in ids;
      SettledStaysPut(before, settled, verdicts, rows, ids[..n]);
      SettledJobStaysPut(rows, ids[n], verdicts(ids[n]));
    }
  }

  /** A second tick at the same instant that gets to no other jobs than the first, in
      whatever order its SELECT returns them, changes nothing at all, so it inserts no
      JOB_MISSED row. */
  lemma SecondTickIsIdle(rows: seq<Alerts.Alert>, first: seq<nat>, second: seq<nat>, verdicts: Verdicts)
    requires Alerts.Valid(rows)
    requires forall id :: id in Reached(second, verdicts) ==> id in Reached(first, verdicts)
    ensures
      var once := StepAll(rows, Reached(first, verdicts), verdicts);
      StepAll(once, Reached(second, verdicts), verdicts) == once
  {
    var reached := Reached(first, verdicts);
    StepAllSettles(rows, reached, verdicts);
    SettledStaysPut(rows, reached, verdicts, StepAll(rows, reached, verdicts), Reached(second, verdicts));
  }

  /** Without an unknown time zone a tick gets to every job, so any two SELECTs of the same
      jobs will do. */
  lemma AnySecondTickIsIdle(rows: seq<Alerts.Alert>, first: seq<nat>, second: seq<nat>, verdicts: Verdicts)
    requires Alerts.Valid(rows) && forall id :: id in first ==> verdicts(id) != BadZone
    requires forall id :: id in second ==> id in first
    ensures StepAll(StepAll(rows, first, verdicts), second, verdicts) == StepAll(rows, first, verdicts)
  {
    ReachedIs(first, verdicts, |first|);
    ReachedIs(second, verdicts, |second|);
    assert first[..|first|] == first && second[..|second|] == second;
    SecondTickIsIdle(rows, first, second, verdicts);
  }

  // ---------------------------------------------------------------- when a job has missed its run

  /** The verdict on a job whose schedule fires next at `fire`. */
  predicate Judged(v: Verdict, fire: Fire, graceMinutes: nat, now: int) {
    && (v == BadZone <==> fire == ZoneError)
    && (v == BadCron <==> fire == CronError)
    && (v == Overdue <==> fire.Next? && now - fire.at > graceMinutes * 60_000_000)
    && (v == OnTime <==> fire.Next? && now - fire.at <= graceMinutes * 60_000_000)
  }

  /** It is judged by the next fire after its last run or, as long as it never ran, after its
      creation: Overdue exactly when that fire is more than the grace ago. */
  lemma JudgeMeans(job: Job, cron: Cron, now: int)
    ensures job.lastRunAt.Some? ==>
              Judged(Judge(job, cron, now), cron(job.schedule, job.timezone, job.lastRunAt.value),
                     job.graceMinutes, now)
    ensures job.lastRunAt == None ==>
              Judged(Judge(job, cron, now), cron(job.schedule, job.timezone, job.createdAt), job.graceMinutes, now)
  {
  }

  /** Once a job has run, its creation no longer matters. */
  lemma OnlyTheLastRunCounts(job: Job, createdAt: int, cron: Cron, now: int)
    requires job.lastRunAt.Some?
    ensures Judge(job.(createdAt := createdAt), cron, now) == Judge(job, cron, now)
  {
    JudgeMeans(job, cron, now);
    JudgeMeans(job.(createdAt := createdAt), cron, now);
  }

  /** No new JOB_MISSED within the grace period of the last run, or of the creation of a job
      that never ran. */
  lemma NotMissedWithinGrace(job: Job, cron: Cron, now: int)
    requires StrictlyAfter(cron)
    ensures job.lastRunAt.Some? && now - job.lastRunAt.value <= job.graceMinutes * 60_000_000 ==>
              Judge(job, cron, now) != Overdue
    ensures job.lastRunAt == None && now - job.createdAt <= job.graceMinutes * 60_000_000 ==>
              Judge(job, cron, now) != Overdue
  {
    JudgeMeans(job, cron, now);
    assert forall after :: cron(job.schedule, job.timezone, after).Next? ==>
      cron(job.schedule, job.timezone, after).at > after;
  }

  /** The jobs the SELECT returns. */
  predicate Considered(job: Job, id: nat, activeRuns: set<nat>) {
    job.enabled && job.mode == JobRuns.SCHEDULE && id !in activeRuns
  }

  class Worker {
    var jobs: map<nat, Job>
    var activeRuns: set<nat>   // the jobs with a PENDING or RUNNING run
    const alerts: AlertTable.Table

    constructor ()
      ensures fresh(alerts) && jobs == map[] && activeRuns == {} && alerts.rows == []
    {
      jobs, activeRuns := map[], {};
      alerts := new AlertTable.Table();
    }

    function Verdicts(cron: Cron, now: int): Verdicts
      reads this
    {
      var jobs := jobs;
      id => if id in jobs then Judge(jobs[id], cron, now) else OnTime
    }

    /** The rows of the SELECT, in whatever order they come. */
    ghost predicate QueryResult(ids: seq<nat>)
      reads this
    {
      forall id :: id in ids <==> id in jobs && Considered(jobs[id], id, activeRuns)
    }

    /** The loop body for one job: the number of JOB_MISSED alerts newly raised. */
    method CheckJob(id: nat, cron: Cron, now: int, ghost v: Verdict) returns (raised: Option<nat>)
      requires id in jobs && v == Judge(jobs[id], cron, now) && Alerts.Valid(alerts.rows)
      modifies alerts
      ensures alerts.rows == JobStep(old(alerts.rows), id, v) && Stepped(old(alerts.rows), id, v, alerts.rows)
      ensures raised.None? <==> v == BadZone
      ensures raised.Some? ==> raised.value == StepRaises(old(alerts.rows), id, v)
    {
      JobStepMeans(alerts.rows, id, v);
      var job := jobs[id];
      var anchor := if job.lastRunAt.Some? then job.lastRunAt.value else job.createdAt;
      match cron(job.schedule, job.timezone, anchor)
      case ZoneError => return None;
      case CronError =>
        var _ := alerts.RaiseAlertIfAbsent(CronKey(id), Alerts.Critical);
        return Some(0);
      case Next(expected) =>
        var _ := alerts.ResolveActiveAlert(CronKey(id), None);
        Alerts.ResolveEffect(old(alerts.rows), CronKey(id), None);
        if now - expected > job.graceMinutes * MINUTE {
          var alreadyActive := alerts.GetActiveAlert(MissedKey(id));
          var alert := alerts.RaiseAlertIfAbsent(MissedKey(id), Alerts.Warning);
          return Some(if alert.Some? && alreadyActive.NoRow? then 1 else 0);
        } else {
          var _ := alerts.ResolveActiveAlert(MissedKey(id), None);
          return Some(0);
        }
    }

    /** The loop over the rows: how many it gets through, and the alerts they newly raise. */
    method CheckAll(ids: seq<nat>, cron: Cron, now: int, ghost verdicts: Verdicts)
      returns (reached: nat, raisedCount: nat)
      requires (forall id :: id in ids ==> id in jobs && verdicts(id) == Judge(jobs[id], cron, now))
               && Alerts.Valid(alerts.rows)
      modifies alerts
      ensures reached <= |ids| && ZonesKnown(ids[..reached], verdicts)
      ensures reached < |ids| ==> verdicts(ids[reached]) == BadZone
      ensures alerts.rows == StepAll(old(alerts.rows), ids[..reached], verdicts)
      ensures raisedCount == AllRaise(old(alerts.rows), ids[..reached], verdicts)
    {
      ghost var before := alerts.rows;
      raisedCount := 0;
      reached := 0;
      while reached < |ids|
        invariant reached <= |ids| && ZonesKnown(ids[..reached], verdicts)
        invariant alerts.rows == StepAll(before, ids[..reached], verdicts)
        invariant raisedCount == AllRaise(before, ids[..reached], verdicts)
      {
        var id := ids[reached];
        assert id in ids && ids[..reached + 1][..reached] == ids[..reached];
        StepAllNext(before, ids, reached, verdicts);
        AllRaiseNext(before, ids, reached, verdicts);
        assert Alerts.Valid(alerts.rows) by {
          RaisedAreInserted(before, ids[..reached], verdicts);
        }
        var raised := CheckJob(id, cron, now, verdicts(id));
        if raised.None? {
          return;
        }
        raisedCount := raisedCount + raised.value;
        reached := reached + 1;
      }
    }

    /** None: an unknown time zone escapes the except clauses and ends the tick; what the
        jobs before it committed stays. */
    method CheckMissedRuns(ids: seq<nat>, cron: Cron, now: int) returns (raisedCount: Option<nat>)
      requires QueryResult(ids) && Alerts.Valid(alerts.rows)
      modifies alerts
      ensures Settled(old(alerts.rows), Reached(ids, Verdicts(cron, now)), Verdicts(cron, now), alerts.rows)
      ensures raisedCount.Some? <==> forall id :: id in ids ==> Judge(jobs[id], cron, now) != BadZone
      ensures raisedCount.Some? ==> raisedCount.value == MissedRows(alerts.rows) - MissedRows(old(alerts.rows))
    {
      ghost var verdicts := Verdicts(cron, now);
      StepAllSettles(alerts.rows, Reached(ids, verdicts), verdicts);
      var reached, count := CheckAll(ids, cron, now, verdicts);
      ZonesKnownMeans(ids[..reached], verdicts);
      assert forall k: nat :: k < reached ==> verdicts(ids[k]) != BadZone by {
        forall k: nat | k < reached
          ensures verdicts(ids[k]) != BadZone
        {
          assert ids[..reached][k] == ids[k];
        }
      }
      ReachedIs(ids, verdicts, reached);
      RaisedAreInserted(old(alerts.rows), ids[..reached], verdicts);
      assert ids[..|ids|] == ids;
      assert reached < |ids| ==> ids[reached] in ids;
      return if reached == |ids| then Some(count) else None;
    }
  }
}
