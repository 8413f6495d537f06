/** Job configuration with its two writers of job alerts split at their awaits: the missed-run
    worker judges the jobs of an earlier SELECT (app/workers/alert_worker.py), and the
    schedule-error report writes after its check of the mode (app/routers/backup_jobs.py).
    Everything else is one step of BackupJobs. */
module BackupJobMachine {
  import opened Wrappers
  import Alerts
  import JobRuns
  import MissedRuns
  import Jobs = BackupJobs

  /** A job that has been read and checked, and what is still to be written about it. */
  datatype Late = Judging(id: nat, verdict: MissedRuns.Verdict) | Reporting(id: nat, active: bool)

  datatype State = State(db: Jobs.Db, held: map<nat, Late>)

  datatype Event =
    | Whole(event: Jobs.Event)
    | Checks(ticket: nat, late: Late)
    | Writes(ticket: nat)

  ghost predicate MayWrite(db: Jobs.Db, late: Late) {
    && late.id in db.jobs && db.jobs[late.id].mode == JobRuns.SCHEDULE
    && (late.Judging? ==> db.jobs[late.id].enabled && !Jobs.Busy(db, late.id))
  }

  /** Neither writer looks at the mode again. The foreign key refuses an alert of a job deleted
      meanwhile, which the helper's savepoint absorbs. */
  ghost function Write(db: Jobs.Db, late: Late): Jobs.Db {
    if late.id !in db.jobs then db
    else match late
      case Judging(id, verdict) => db.(alerts := MissedRuns.JobStep(db.alerts, id, verdict))
      case Reporting(id, active) =>
        db.(alerts := if active then Alerts.Raise(db.alerts, MissedRuns.CronKey(id), Alerts.Critical)
                      else Alerts.Resolve(db.alerts, MissedRuns.CronKey(id), None))
  }

  ghost function Apply(s: State, e: Event, cronOk: string -> bool): State {
    match e
    case Whole(event) => s.(db := Jobs.Apply(s.db, event, cronOk))
    case Checks(ticket, late) =>
      if ticket in s.held || !MayWrite(s.db, late) then s else s.(held := s.held[ticket := late])
    case Writes(ticket) =>
      if ticket !in s.held then s else State(Write(s.db, s.held[ticket]), s.held - {ticket})
  }

  ghost function After(events: seq<Event>, cronOk: string -> bool): State {
    if events == [] then State(Jobs.EMPTY, map[])
    else Apply(After(events[..|events| - 1], cronOk), events[|events| - 1], cronOk)
  }

  function AsWhole(late: Late): Jobs.Event {
    match late
    case Judging(id, verdict) => Jobs.WorkerJudged(id, verdict)
    case Reporting(id, active) => Jobs.ScheduleErrorReported(id, active)
  }

  /** With nothing in between, check and write are the atomic step. */
  lemma CheckThenWriteIsWhole(s: State, ticket: nat, late: Late, cronOk: string -> bool)
    requires ticket !in s.held
    ensures Apply(Apply(s, Checks(ticket, late), cronOk), Writes(ticket), cronOk) ==
            Apply(s, Whole(AsWhole(late)), cronOk)
  {
    var checked := Apply(s, Checks(ticket, late), cronOk);
    if MayWrite(s.db, late) {
      assert checked.held - {ticket} == s.held;
    }
  }

  // ---------------------------------------------------------------- what always holds

  /** The two alerts that are about a job's schedule. */
  datatype Kind = CronInvalid | Missed

  function KeyOf(kind: Kind, id: nat): Alerts.Key {
    if kind.CronInvalid? then MissedRuns.CronKey(id) else MissedRuns.MissedKey(id)
  }

  ghost predicate AlertsKnown(db: Jobs.Db) {
    forall kind: Kind, id: nat | Alerts.HasActive(db.alerts, KeyOf(kind, id)) :: id in db.jobs
  }

  ghost predicate Inv(db: Jobs.Db) {
    Jobs.JobsOk(db) && Jobs.RunsOk(db) && Alerts.Valid(db.alerts) && AlertsKnown(db)
  }

  lemma PatchAlerts(db: Jobs.Db, id: nat, p: Jobs.Patch)
    requires Alerts.Valid(db.alerts) && id in db.jobs
    ensures
      var after := Jobs.ApplyPatch(db, id, p);
      && Alerts.Valid(after.alerts)
      && forall k :: Alerts.HasActive(after.alerts, k) <==>
                     Alerts.HasActive(db.alerts, k)
                     && !(k == MissedRuns.CronKey(id) && Jobs.FixesCron(Jobs.Merge(db.jobs[id], p), p))
  {
    Alerts.ResolveEffect(db.alerts, MissedRuns.CronKey(id), None);
  }

  /** Which alerts a write raises. */
  predicate Raises(late: Late, kind: Kind) {
    match kind
    case CronInvalid => late == Reporting(late.id, true) || late == Judging(late.id, MissedRuns.BadCron)
    case Missed => late == Judging(late.id, MissedRuns.Overdue)
  }

  lemma WriteAlerts(db: Jobs.Db, late: Late)
    requires Alerts.Valid(db.alerts)
    ensures Alerts.Valid(Write(db, late).alerts)
    ensures forall kind: Kind, id: nat ::
              Alerts.HasActive(Write(db, late).alerts, KeyOf(kind, id)) ==>
                (id == late.id && id in db.jobs && Raises(late, kind)) || Alerts.HasActive(db.alerts, KeyOf(kind, id))
    ensures forall kind: Kind | late.id in db.jobs && Raises(late, kind) ::
              Alerts.HasActive(Write(db, late).alerts, KeyOf(kind, late.id))
  {
    match late
    case Judging(id, verdict) => MissedRuns.JobStepEffect(db.alerts, id, verdict);
    case Reporting(id, _) =>
      Alerts.RaiseEffect(db.alerts, MissedRuns.CronKey(id), Alerts.Critical);
      Alerts.ResolveEffect(db.alerts, MissedRuns.CronKey(id), None);
  }

  predicate IsLate(event: Jobs.Event) { event.WorkerJudged? || event.ScheduleErrorReported? }

  function AsLate(event: Jobs.Event): Late
    requires IsLate(event)
  {
    if event.WorkerJudged? then Judging(event.id, event.verdict) else Reporting(event.id, event.active)
  }

  lemma WholeIsWrite(db: Jobs.Db, event: Jobs.Event, cronOk: string -> bool)
    requires IsLate(event)
    ensures Jobs.Apply(db, event, cronOk) == if MayWrite(db, AsLate(event)) then Write(db, AsLate(event)) else db
  {
  }

  lemma WriteKeepsInv(db: Jobs.Db, late: Late)
    requires Inv(db)
    ensures Inv(Write(db, late))
  {
    WriteAlerts(db, late);
  }

  lemma AlertsStayKnown(db: Jobs.Db, event: Jobs.Event, cronOk: string -> bool)
    requires Inv(db) && !IsLate(event)
    ensures Alerts.Valid(Jobs.Apply(db, event, cronOk).alerts) && AlertsKnown(Jobs.Apply(db, event, cronOk))
  {
    if event.JobPatched? {
      if Jobs.Acceptable(db, event.id, event.patch, cronOk) {
        PatchAlerts(db, event.id, event.patch);
      }
    } else {
      OtherAlerts(db, event, cronOk);
    }
  }

  /** The other events raise neither alert and remove only jobs without them. */
  lemma OtherAlerts(db: Jobs.Db, event: Jobs.Event, cronOk: string -> bool)
    requires Inv(db) && !IsLate(event) && !event.JobPatched?
    ensures
      var after := Jobs.Apply(db, event, cronOk);
      && Alerts.Valid(after.alerts)
      && forall kind: Kind, id: nat | Alerts.HasActive(after.alerts, KeyOf(kind, id)) ::
           Alerts.HasActive(db.alerts, KeyOf(kind, id)) && id in after.jobs && after.jobs[id] == db.jobs[id]
  {
    if event.JobDeleted? {
      DeletionAlerts(db, event.id);
    } else if event.AlertByAdmin? {
      Alerts.AdminEffect(db.alerts, event.alertId, event.action);
    } else {
      QuietEvent(db, event, cronOk);
    }
  }

  lemma QuietEvent(db: Jobs.Db, event: Jobs.Event, cronOk: string -> bool)
    requires Jobs.JobsOk(db)
    requires !IsLate(event) && !event.JobPatched? && !event.JobDeleted? && !event.AlertByAdmin?
    ensures
      var after := Jobs.Apply(db, event, cronOk);
      after.alerts == db.alerts && forall id | id in db.jobs :: id in after.jobs && after.jobs[id] == db.jobs[id]
  {
  }

  lemma DeletionAlerts(db: Jobs.Db, deleted: nat)
    requires Inv(db)
    ensures
      var alerts := Alerts.DeleteParent(db.alerts, Alerts.BackupJob, deleted);
      && Alerts.Valid(alerts)
      && forall kind: Kind, id: nat | Alerts.HasActive(alerts, KeyOf(kind, id)) ::
           Alerts.HasActive(db.alerts, KeyOf(kind, id)) && id in db.jobs && id != deleted
  {
    Alerts.DeleteParentEffect(db.alerts, Alerts.BackupJob, deleted);
  }

  lemma StepKeepsInv(s: State, e: Event, cronOk: string -> bool)
    requires Inv(s.db)
    ensures Inv(Apply(s, e, cronOk).db)
  {
    match e
    case Checks(_, _) =>
    case Writes(ticket) => if ticket in s.held { WriteKeepsInv(s.db, s.held[ticket]); }
    case Whole(event) =>
      if IsLate(event) {
        WholeIsWrite(s.db, event, cronOk);
        WriteKeepsInv(s.db, AsLate(event));
      } else {
        Jobs.StepKeepsRuns(s.db, event, cronOk);
        AlertsStayKnown(s.db, event, cronOk);
      }
  }

  /** Over every interleaving: stored jobs are well formed, active manual runs belong to
      SCHEDULE jobs, and both alerts are ACTIVE only for jobs that exist. */
  lemma {:induction false} EveryReachableState(events: seq<Event>, cronOk: string -> bool)
    ensures Inv(After(events, cronOk).db)
  {
    if events != [] {
      EveryReachableState(events[..|events| - 1], cronOk);
      StepKeepsInv(After(events[..|events| - 1], cronOk), events[|events| - 1], cronOk);
    }
  }

  // ---------------------------------------------------------------- only on SCHEDULE jobs

  ghost predicate OnSchedule(db: Jobs.Db, kind: Kind) {
    forall id: nat | Alerts.HasActive(db.alerts, KeyOf(kind, id)) ::
      id in db.jobs && db.jobs[id].mode == JobRuns.SCHEDULE
  }

  /** The two ways in which a job that is not on SCHEDULE gets or keeps the alert: a late write
      about a job moved to WATCH since it was checked, and, for JOB_MISSED, the accepted PATCH
      to WATCH of a job that has it. */
  ghost predicate Breaks(s: State, e: Event, kind: Kind, cronOk: string -> bool) {
    || (e.Writes? && e.ticket in s.held && Raises(s.held[e.ticket], kind)
        && s.held[e.ticket].id in s.db.jobs && s.db.jobs[s.held[e.ticket].id].mode == JobRuns.WATCH)
    || (kind.Missed? && e.Whole? && e.event.JobPatched? && e.event.patch.mode == Set(JobRuns.WATCH)
        && Jobs.Acceptable(s.db, e.event.id, e.event.patch, cronOk)
        && Alerts.HasActive(s.db.alerts, MissedRuns.MissedKey(e.event.id)))
  }

  lemma WriteKeepsOnSchedule(db: Jobs.Db, late: Late, kind: Kind)
    requires Inv(db) && OnSchedule(db, kind)
    ensures OnSchedule(Write(db, late), kind) <==>
            !(Raises(late, kind) && late.id in db.jobs && db.jobs[late.id].mode == JobRuns.WATCH)
  {
    WriteAlerts(db, late);
  }

  lemma PatchKeepsOnSchedule(db: Jobs.Db, id: nat, p: Jobs.Patch, kind: Kind, cronOk: string -> bool)
    requires Inv(db) && OnSchedule(db, kind) && Jobs.Acceptable(db, id, p, cronOk)
    ensures OnSchedule(Jobs.ApplyPatch(db, id, p), kind) <==>
            !(kind.Missed? && p.mode == Set(JobRuns.WATCH) && Alerts.HasActive(db.alerts, MissedRuns.MissedKey(id)))
  {
    PatchAlerts(db, id, p);
    var after := Jobs.ApplyPatch(db, id, p);
    assert Alerts.HasActive(after.alerts, KeyOf(kind, id)) && after.jobs[id].mode == JobRuns.WATCH ==>
        kind.Missed? && p.mode == Set(JobRuns.WATCH);
    if kind.Missed? && p.mode == Set(JobRuns.WATCH) && Alerts.HasActive(db.alerts, MissedRuns.MissedKey(id)) {
      assert Alerts.HasActive(after.alerts, KeyOf(kind, id)) && after.jobs[id].mode == JobRuns.WATCH;
    }
  }

  lemma OtherStepKeepsOnSchedule(db: Jobs.Db, event: Jobs.Event, kind: Kind, cronOk: string -> bool)
    requires Inv(db) && OnSchedule(db, kind) && !IsLate(event) && !event.JobPatched?
    ensures OnSchedule(Jobs.Apply(db, event, cronOk), kind)
  {
    OtherAlerts(db, event, cronOk);
  }

  /** Those are exactly the steps that break it. */
  lemma StepKeepsOnSchedule(s: State, e: Event, kind: Kind, cronOk: string -> bool)
    requires Inv(s.db) && OnSchedule(s.db, kind)
    ensures OnSchedule(Apply(s, e, cronOk).db, kind) <==> !Breaks(s, e, kind, cronOk)
  {
    match e
    case Checks(_, _) =>
    case Writes(ticket) => if ticket in s.held { WriteKeepsOnSchedule(s.db, s.held[ticket], kind); }
    case Whole(event) =>
      if IsLate(event) {
        WholeIsWrite(s.db, event, cronOk);
        WriteKeepsOnSchedule(s.db, AsLate(event), kind);
      } else if event.JobPatched? {
        if Jobs.Acceptable(s.db, event.id, event.patch, cronOk) {
          PatchKeepsOnSchedule(s.db, event.id, event.patch, kind, cronOk);
        }
      } else {
        OtherStepKeepsOnSchedule(s.db, event, kind, cronOk);
      }
  }

  /** After the first n events. */
  ghost predicate OnScheduleAt(events: seq<Event>, n: nat, kind: Kind, cronOk: string -> bool)
    requires n <= |events|
  {
    OnSchedule(After(events[..n], cronOk).db, kind)
  }

  ghost predicate BreaksAt(events: seq<Event>, n: nat, kind: Kind, cronOk: string -> bool)
    requires n < |events|
  {
    Breaks(After(events[..n], cronOk), events[n], kind, cronOk)
  }

  ghost predicate OnScheduleThroughout(events: seq<Event>, kind: Kind, cronOk: string -> bool) {
    forall n: nat | n <= |events| :: OnScheduleAt(events, n, kind, cronOk)
  }

  ghost predicate NeverBroken(events: seq<Event>, kind: Kind, cronOk: string -> bool) {
    forall n: nat | n < |events| :: !BreaksAt(events, n, kind, cronOk)
  }

  lemma SameInPrefix(events: seq<Event>, m: nat, n: nat, kind: Kind, cronOk: string -> bool)
    requires n <= m <= |events|
    ensures OnScheduleAt(events[..m], n, kind, cronOk) <==> OnScheduleAt(events, n, kind, cronOk)
    ensures n < m ==> (BreaksAt(events[..m], n, kind, cronOk) <==> BreaksAt(events, n, kind, cronOk))
  {
    assert events[..m][..n] == events[..n];
  }

  lemma ThroughoutSplits(events: seq<Event>, kind: Kind, cronOk: string -> bool)
    requires events != []
    ensures
      var m := |events| - 1;
      OnScheduleThroughout(events, kind, cronOk) <==>
      OnScheduleThroughout(events[..m], kind, cronOk) && OnScheduleAt(events, m + 1, kind, cronOk)
  {
    var m := |events| - 1;
    forall n: nat | n <= m
      ensures OnScheduleAt(events[..m], n, kind, cronOk) <==> OnScheduleAt(events, n, kind, cronOk)
    {
      SameInPrefix(events, m, n, kind, cronOk);
    }
  }

  lemma NeverBrokenSplits(events: seq<Event>, kind: Kind, cronOk: string -> bool)
    requires events != []
    ensures
      var m := |events| - 1;
      NeverBroken(events, kind, cronOk) <==>
      NeverBroken(events[..m], kind, cronOk) && !BreaksAt(events, m, kind, cronOk)
  {
    var m := |events| - 1;
    forall n: nat | n < m
      ensures BreaksAt(events[..m], n, kind, cronOk) <==> BreaksAt(events, n, kind, cronOk)
    {
      SameInPrefix(events, m, n, kind, cronOk);
    }
  }

  lemma LastStep(events: seq<Event>, kind: Kind, cronOk: string -> bool)
    requires events != [] && OnScheduleAt(events, |events| - 1, kind, cronOk)
    ensures OnScheduleAt(events, |events|, kind, cronOk) <==> !BreaksAt(events, |events| - 1, kind, cronOk)
  {
    var m := |events| - 1;
    assert events[..|events|] == events;
    EveryReachableState(events[..m], cronOk);
    StepKeepsOnSchedule(After(events[..m], cronOk), events[m], kind, cronOk);
  }

  /** Over a whole history the alert is ACTIVE on SCHEDULE jobs only iff no step was one of
      those. */
  lemma {:induction false} OnScheduleIffNeverBroken(events: seq<Event>, kind: Kind, cronOk: string -> bool)
    ensures OnScheduleThroughout(events, kind, cronOk) <==> NeverBroken(events, kind, cronOk)
  {
    if events == [] {
      assert OnScheduleAt(events, 0, kind, cronOk);
    } else {
      var m := |events| - 1;
      OnScheduleIffNeverBroken(events[..m], kind, cronOk);
      ThroughoutSplits(events, kind, cronOk);
      NeverBrokenSplits(events, kind, cronOk);
      if OnScheduleThroughout(events[..m], kind, cronOk) {
        assert OnScheduleAt(events[..m], m, kind, cronOk);
        SameInPrefix(events, m, m, kind, cronOk);
        LastStep(events, kind, cronOk);
      }
    }
  }

  /** Both writers atomic. */
  predicate Atomic(events: seq<Event>) { forall i :: 0 <= i < |events| ==> events[i].Whole? }

  /** In particular JOB_CRON_INVALID, as long as both writers are atomic. */
  lemma AtomicWritersKeepCronInvalid(events: seq<Event>, cronOk: string -> bool)
    requires Atomic(events)
    ensures OnScheduleThroughout(events, CronInvalid, cronOk)
  {
    OnScheduleIffNeverBroken(events, CronInvalid, cronOk);
  }
}
