/** Backup job configuration (app/routers/backup_jobs.py, app/schemas/backup_job.py and the
    CHECK constraints of app/models/backup_job.py), with the writers of JOB_CRON_INVALID. */
module BackupJobs {
  import opened Wrappers
  import Alerts
  import AlertTable
  import JobRuns
  import MissedRuns
  import opened RemotePaths

  /** NOT NULL columns that no check reads. */
  datatype Column = Name | Timezone | RetentionDays | RetentionMinCopies | MissedRunGrace | PendingGrace
    | WeekendUnrestricted

  /** server_id and disk_id cannot be edited. */
  datatype Job = Job(
    serverId: nat,
    diskId: nat,
    enabled: bool,
    mode: JobRuns.Mode,
    backupType: BackupType,
    scheduleCron: Option<string>,
    sourcePath: Option<string>,
    watchDirectory: Option<string>,
    sqlInstanceId: Option<nat>,
    verificationMethod: Option<string>,
    databaseName: Option<string>,
    windowStart: Option<int>,
    windowEnd: Option<int>,
    remoteOverride: Option<string>,
    plain: map<Column, string>)

  datatype Patch = Patch(
    enabled: Field<bool>,
    mode: Field<JobRuns.Mode>,
    backupType: Field<BackupType>,
    scheduleCron: Field<string>,
    sourcePath: Field<string>,
    watchDirectory: Field<string>,
    sqlInstanceId: Field<nat>,
    verificationMethod: Field<string>,
    databaseName: Field<string>,
    windowStart: Field<int>,
    windowEnd: Field<int>,
    remoteOverride: Field<string>,
    plain: map<Column, Option<string>>)

  // ---------------------------------------------------------------- what a well-formed job is

  predicate Filled(s: Option<string>) { s.Some? && s.value != "" }

  predicate ModeOk(job: Job) {
    if job.mode == JobRuns.SCHEDULE
    then Filled(job.scheduleCron) && Filled(job.sourcePath) && job.watchDirectory == None
    else Filled(job.watchDirectory) && job.scheduleCron == None && job.sourcePath == None
         && job.backupType != TRANSACTION_LOG && job.backupType != CUSTOM
  }

  predicate VerificationOk(job: Job) {
    job.sqlInstanceId.Some? ==> job.verificationMethod.Some? && Filled(job.databaseName)
  }

  predicate HourOk(hour: Option<int>) { hour.Some? ==> 0 <= hour.value <= 23 }

  predicate WindowOk(start: Option<int>, end: Option<int>) {
    HourOk(start) && HourOk(end) && (start.Some? <==> end.Some?) && (start.Some? ==> start != end)
  }

  predicate WellFormed(job: Job) {
    ModeOk(job) && VerificationOk(job) && WindowOk(job.windowStart, job.windowEnd)
    && CheckOverride(job.remoteOverride) == None
  }

  // ---------------------------------------------------------------- PATCH

  /** The value a validator sees: an absent field looks like an explicit null. */
  function Given<T>(f: Field<T>): Option<T> { if f.Set? then Some(f.value) else None }

  predicate NonEmpty(f: Field<string>) { f.Set? ==> f.value != "" }

  /** BackupJobUpdate: what can be checked without the stored row. */
  predicate SchemaOk(p: Patch, cronOk: string -> bool) {
    && NonEmpty(p.scheduleCron) && NonEmpty(p.sourcePath) && NonEmpty(p.watchDirectory)
    && WindowOk(Given(p.windowStart), Given(p.windowEnd))
    && (p.scheduleCron.Set? ==> cronOk(p.scheduleCron.value))
    && CheckOverride(Given(p.remoteOverride)) == None
  }

  predicate NullsNotNull(p: Patch) {
    p.enabled.Null? || p.mode.Null? || p.backupType.Null? || exists c :: c in p.plain && p.plain[c] == None
  }

  function Or<T>(f: Field<T>, stored: T): T { if f.Set? then f.value else stored }

  function Values(plain: map<Column, Option<string>>): map<Column, string> {
    map c | c in plain && plain[c].Some? :: plain[c].value
  }

  /** The setattr loop; columns that cannot be NULL keep their value here. */
  function Merge(job: Job, p: Patch): Job {
    Job(job.serverId, job.diskId, Or(p.enabled, job.enabled), Or(p.mode, job.mode), Or(p.backupType, job.backupType),
        p.scheduleCron.Over(job.scheduleCron), p.sourcePath.Over(job.sourcePath),
        p.watchDirectory.Over(job.watchDirectory),
        p.sqlInstanceId.Over(job.sqlInstanceId), p.verificationMethod.Over(job.verificationMethod),
        p.databaseName.Over(job.databaseName), p.windowStart.Over(job.windowStart), p.windowEnd.Over(job.windowEnd),
        p.remoteOverride.Over(job.remoteOverride),
        job.plain + Values(p.plain))
  }

  datatype ActiveRun = ActiveRun(jobId: nat, manual: bool)

  /** Of servers and SQL instances only whether they are deleted, of disks their server. */
  datatype Db = Db(
    jobs: map<nat, Job>, nextId: nat, activeRuns: map<nat, ActiveRun>,
    servers: map<nat, bool>, disks: map<nat, nat>, instances: map<nat, bool>, alerts: seq<Alerts.Alert>)

  const EMPTY: Db := Db(map[], 0, map[], map[], map[], map[], [])

  ghost predicate Busy(db: Db, jobId: nat) {
    exists r :: r in db.activeRuns && db.activeRuns[r].jobId == jobId
  }

  predicate ChangesMode(job: Job, p: Patch) { p.mode.Null? || (p.mode.Set? && p.mode.value != job.mode) }

  /** JOB_CRON_INVALID is resolved when the schedule is edited or the job leaves SCHEDULE. */
  predicate FixesCron(merged: Job, p: Patch) {
    !p.scheduleCron.Unset? || (!p.mode.Unset? && merged.mode != JobRuns.SCHEDULE)
  }

  ghost function ApplyPatch(db: Db, id: nat, p: Patch): Db
    requires id in db.jobs
  {
    var merged := Merge(db.jobs[id], p);
    db.(jobs := db.jobs[id := merged],
        alerts := if FixesCron(merged, p) then Alerts.Resolve(db.alerts, MissedRuns.CronKey(id), None) else db.alerts)
  }

  /** Exactly the PATCHes that are accepted: what the schema lets through, on an existing
      job, leaving its mode alone under an active run, nulling no required column, naming
      an existing SQL instance -- and leaving the job well formed. */
  ghost predicate Acceptable(db: Db, id: nat, p: Patch, cronOk: string -> bool) {
    && SchemaOk(p, cronOk) && id in db.jobs && !(ChangesMode(db.jobs[id], p) && Busy(db, id)) && !NullsNotNull(p)
    && (p.sqlInstanceId.Set? ==> p.sqlInstanceId.value in db.instances)
    && WellFormed(Merge(db.jobs[id], p))
  }

  // ---------------------------------------------------------------- what is refused, and what is written

  /** Why a job cannot be stored: verification without its method or database, a SCHEDULE job
      without its schedule or source or with a directory to watch, a WATCH job the other way
      round or of a type whose backups build on each other. */
  predicate Unfit(job: Job) {
    || (job.sqlInstanceId.Some?
        && (job.verificationMethod == None || job.databaseName == None || job.databaseName == Some("")))
    || (job.mode == JobRuns.SCHEDULE
        && (job.scheduleCron == None || job.scheduleCron == Some("") || job.sourcePath == None
            || job.sourcePath == Some("") || job.watchDirectory.Some?))
    || (job.mode == JobRuns.WATCH
        && (job.watchDirectory == None || job.watchDirectory == Some("") || job.scheduleCron.Some?
            || job.sourcePath.Some? || job.backupType == TRANSACTION_LOG || job.backupType == CUSTOM))
  }

  lemma ModeMeans(job: Job)
    ensures ModeOk(job) && VerificationOk(job) <==> !Unfit(job)
  {
  }

  /** No window, or two different hours of the day. */
  predicate WindowAllowed(start: Option<int>, end: Option<int>) {
    || (start == None && end == None)
    || (start.Some? && end.Some? && 0 <= start.value <= 23 && 0 <= end.value <= 23 && start.value != end.value)
  }

  lemma WindowMeans(start: Option<int>, end: Option<int>)
    ensures WindowOk(start, end) <==> WindowAllowed(start, end)
  {
  }

  /** What the schema refuses of a PATCH, without looking at the stored row. */
  predicate SchemaRefuses(p: Patch, cronOk: string -> bool) {
    || p.scheduleCron == Set("") || p.sourcePath == Set("") || p.watchDirectory == Set("")
    || (p.scheduleCron.Set? && !cronOk(p.scheduleCron.value))
    || !WindowAllowed(if p.windowStart.Set? then Some(p.windowStart.value) else None,
                      if p.windowEnd.Set? then Some(p.windowEnd.value) else None)
    || (p.remoteOverride.Set? && CheckOverride(Some(p.remoteOverride.value)).Some?)
  }

  predicate Stored<T(==)>(before: Option<T>, field: Field<T>, after: Option<T>) {
    && (field.Set? ==> after == Some(field.value))
    && (field.Null? ==> after == None)
    && (field.Unset? ==> after == before)
  }

  predicate StoredNotNull<T(==)>(before: T, field: Field<T>, after: T) {
    after == if field.Set? then field.value else before
  }

  /** The job after a PATCH: every field sent has the value sent, every other one is as before. */
  predicate Edited(before: Job, p: Patch, after: Job) {
    && after.serverId == before.serverId && after.diskId == before.diskId
    && StoredNotNull(before.enabled, p.enabled, after.enabled)
    && StoredNotNull(before.mode, p.mode, after.mode)
    && StoredNotNull(before.backupType, p.backupType, after.backupType)
    && Stored(before.scheduleCron, p.scheduleCron, after.scheduleCron)
    && Stored(before.sourcePath, p.sourcePath, after.sourcePath)
    && Stored(before.watchDirectory, p.watchDirectory, after.watchDirectory)
    && Stored(before.sqlInstanceId, p.sqlInstanceId, after.sqlInstanceId)
    && Stored(before.verificationMethod, p.verificationMethod, after.verificationMethod)
    && Stored(before.databaseName, p.databaseName, after.databaseName)
    && Stored(before.windowStart, p.windowStart, after.windowStart)
    && Stored(before.windowEnd, p.windowEnd, after.windowEnd)
    && Stored(before.remoteOverride, p.remoteOverride, after.remoteOverride)
    && (forall c | c in p.plain && p.plain[c].Some? :: c in after.plain && after.plain[c] == p.plain[c].value)
    && (forall c | c in before.plain && c !in p.plain :: c in after.plain && after.plain[c] == before.plain[c])
  }

  lemma MergeEdits(job: Job, p: Patch)
    ensures Edited(job, p, Merge(job, p))
  {
  }

  /** A PATCH that touches the schedule, or leaves the job off SCHEDULE, ends JOB_CRON_INVALID;
      no PATCH touches any other alert. */
  ghost predicate PatchStored(before: Db, id: nat, p: Patch, after: Db) {
    && id in before.jobs && id in after.jobs && Edited(before.jobs[id], p, after.jobs[id])
    && after.(alerts := before.alerts) == before.(jobs := before.jobs[id := after.jobs[id]])
    && if !p.scheduleCron.Unset? || (!p.mode.Unset? && after.jobs[id].mode == JobRuns.WATCH)
       then Alerts.OnlyAlert(before.alerts, Alerts.Key(Alerts.BackupJob, id, Alerts.JobCronInvalid), false,
                             Alerts.Critical, after.alerts)
       else after.alerts == before.alerts
  }

  lemma PatchIsStored(db: Db, id: nat, p: Patch)
    requires id in db.jobs && Alerts.Valid(db.alerts)
    ensures PatchStored(db, id, p, ApplyPatch(db, id, p))
  {
    MergeEdits(db.jobs[id], p);
    Alerts.ResolveMeans(db.alerts, Alerts.Key(Alerts.BackupJob, id, Alerts.JobCronInvalid), None, Alerts.Critical);
  }

  /** A mode sent, even as null, that is not the stored one while a run of the job is active. */
  ghost predicate ModeInUse(db: Db, id: nat, p: Patch)
    requires id in db.jobs
  {
    && !p.mode.Unset? && p.mode != Set(db.jobs[id].mode)
    && exists r :: r in db.activeRuns && db.activeRuns[r].jobId == id
  }

  /** What an accepted PATCH needs beyond its schema: no null for a NOT NULL column, a known SQL
      instance, and a job that could have been created with these values. */
  ghost predicate Storable(db: Db, id: nat, p: Patch)
    requires id in db.jobs
  {
    && !p.enabled.Null? && !p.mode.Null? && !p.backupType.Null? && (forall c | c in p.plain :: p.plain[c].Some?)
    && (p.sqlInstanceId.Set? ==> p.sqlInstanceId.value in db.instances)
    && forall job | Edited(db.jobs[id], p, job) && job.plain == Merge(db.jobs[id], p).plain ::
         !Unfit(job) && WindowAllowed(job.windowStart, job.windowEnd)
  }

  lemma OneEdit(job: Job, p: Patch, after: Job)
    requires Edited(job, p, after) && after.plain == Merge(job, p).plain
    ensures after == Merge(job, p)
  {
  }

  /** Exactly these PATCHes are accepted. */
  lemma AcceptableMeans(db: Db, id: nat, p: Patch, cronOk: string -> bool)
    requires id in db.jobs ==> WellFormed(db.jobs[id])
    ensures Acceptable(db, id, p, cronOk) <==>
            !SchemaRefuses(p, cronOk) && id in db.jobs && !ModeInUse(db, id, p) && Storable(db, id, p)
  {
    SchemaMeans(p, cronOk);
    if id in db.jobs {
      StorableMeans(db, id, p);
      PatchedOverride(db.jobs[id], p);
    }
  }

  lemma SchemaMeans(p: Patch, cronOk: string -> bool)
    ensures SchemaOk(p, cronOk) <==> !SchemaRefuses(p, cronOk)
  {
    WindowMeans(Given(p.windowStart), Given(p.windowEnd));
    assert CheckOverride(None) == None;
  }

  lemma StorableMeans(db: Db, id: nat, p: Patch)
    requires id in db.jobs
    ensures
      var merged := Merge(db.jobs[id], p);
      Storable(db, id, p) <==>
      !NullsNotNull(p) && (p.sqlInstanceId.Set? ==> p.sqlInstanceId.value in db.instances)
      && ModeOk(merged) && VerificationOk(merged) && WindowOk(merged.windowStart, merged.windowEnd)
  {
    var merged := Merge(db.jobs[id], p);
    ModeMeans(merged);
    WindowMeans(merged.windowStart, merged.windowEnd);
    MergeEdits(db.jobs[id], p);
    forall job | Edited(db.jobs[id], p, job) && job.plain == merged.plain
      ensures job == merged
    {
      OneEdit(db.jobs[id], p, job);
    }
  }

  /** An override that the schema lets through leaves a good job good. */
  lemma PatchedOverride(job: Job, p: Patch)
    requires WellFormed(job)
    ensures CheckOverride(Given(p.remoteOverride)) == None ==> CheckOverride(Merge(job, p).remoteOverride) == None
  {
    assert CheckOverride(None) == None;
  }

  /** A window PATCH can pass the schema and still be refused by the CHECK constraint:
      exactly when it nulls one hour, omits the other, and a window is stored. */
  lemma WindowNullTrap(job: Job, p: Patch)
    requires WindowOk(job.windowStart, job.windowEnd) && WindowOk(Given(p.windowStart), Given(p.windowEnd))
    ensures
      var merged := Merge(job, p);
      WindowOk(merged.windowStart, merged.windowEnd) <==>
      !(job.windowStart.Some? && (p.windowStart.Null? != p.windowEnd.Null?))
  {
  }

  predicate OnDeletedInstance(db: Db, instance: Option<nat>) {
    instance.Some? && instance.value in db.instances && db.instances[instance.value]
  }

  /** Attaching a job to a deleted SQL instance is refused on creation but not on PATCH: an
      accepted PATCH leaves the job on a deleted instance exactly when it names one, or when
      it names none and the job was on one already. */
  lemma PatchedOntoDeletedInstance(db: Db, id: nat, p: Patch, cronOk: string -> bool)
    requires Acceptable(db, id, p, cronOk)
    ensures
      var after := ApplyPatch(db, id, p);
      && OnDeletedInstance(after, after.jobs[id].sqlInstanceId) <==>
         (p.sqlInstanceId.Set? && db.instances[p.sqlInstanceId.value])
         || (p.sqlInstanceId.Unset? && OnDeletedInstance(db, db.jobs[id].sqlInstanceId))
  {
  }

  /** Such a PATCH is accepted for every well-formed job with a database name. */
  lemma PatchCanAttachDeletedInstance(db: Db, id: nat, instance: nat, cronOk: string -> bool)
    requires id in db.jobs && WellFormed(db.jobs[id]) && Filled(db.jobs[id].databaseName)
    requires instance in db.instances && db.instances[instance]
    ensures exists p :: Acceptable(db, id, p, cronOk) && OnDeletedInstance(ApplyPatch(db, id, p), Some(instance))
              && ApplyPatch(db, id, p).jobs[id].sqlInstanceId == Some(instance)
  {
    assert CheckOverride(None) == None;
    var p := NO_CHANGE.(sqlInstanceId := Set(instance), verificationMethod := Set("checksum"));
    assert Acceptable(db, id, p, cronOk);
  }

  // ---------------------------------------------------------------- what merging means

  const NO_CHANGE: Patch :=
    Patch(Unset, Unset, Unset, Unset, Unset, Unset, Unset, Unset, Unset, Unset, Unset, Unset, map[])

  function Sent<T>(value: Option<T>): Field<T> { if value.Some? then Set(value.value) else Null }

  /** The PATCH that sends a whole row back. */
  function WholeRow(job: Job): Patch {
    Patch(Set(job.enabled), Set(job.mode), Set(job.backupType), Sent(job.scheduleCron), Sent(job.sourcePath),
          Sent(job.watchDirectory), Sent(job.sqlInstanceId), Sent(job.verificationMethod), Sent(job.databaseName),
          Sent(job.windowStart), Sent(job.windowEnd), Sent(job.remoteOverride),
          map c | c in job.plain :: Some(job.plain[c]))
  }

  /** The PATCH that sends what either sends, the second one winning. */
  function Later<T>(first: Field<T>, second: Field<T>): Field<T> { if second.Unset? then first else second }

  function Together(p: Patch, q: Patch): Patch {
    Patch(Later(p.enabled, q.enabled), Later(p.mode, q.mode), Later(p.backupType, q.backupType),
          Later(p.scheduleCron, q.scheduleCron), Later(p.sourcePath, q.sourcePath),
          Later(p.watchDirectory, q.watchDirectory), Later(p.sqlInstanceId, q.sqlInstanceId),
          Later(p.verificationMethod, q.verificationMethod), Later(p.databaseName, q.databaseName),
          Later(p.windowStart, q.windowStart), Later(p.windowEnd, q.windowEnd),
          Later(p.remoteOverride, q.remoteOverride), p.plain + q.plain)
  }

  /** Sending nothing changes nothing, and sending a row back makes the stored row that row,
      whatever was stored. */
  lemma MergeRoundTrip(stored: Job, job: Job)
    requires stored.serverId == job.serverId && stored.diskId == job.diskId && stored.plain.Keys == job.plain.Keys
    ensures Merge(stored, NO_CHANGE) == stored
    ensures Merge(stored, WholeRow(job)) == job
  {
    assert stored.plain + map[] == stored.plain;
    assert Merge(stored, WholeRow(job)).plain == job.plain;
  }

  lemma ValuesAdd(p: map<Column, Option<string>>, q: map<Column, Option<string>>)
    requires (forall c | c in p :: p[c].Some?) && (forall c | c in q :: q[c].Some?)
    ensures Values(p + q) == Values(p) + Values(q)
  {
  }

  /** Two PATCHes in a row are the one PATCH that sends what both send. */
  lemma MergeTwice(stored: Job, p: Patch, q: Patch)
    requires !NullsNotNull(p) && !NullsNotNull(q)
    ensures Merge(Merge(stored, p), q) == Merge(stored, Together(p, q))
  {
    assert Merge(Merge(stored, p), q).plain == Merge(stored, Together(p, q)).plain by {
      ValuesAdd(p.plain, q.plain);
      assert stored.plain + Values(p.plain) + Values(q.plain) == stored.plain + (Values(p.plain) + Values(q.plain));
    }
    assert Merge(Merge(stored, p), q).(plain := map[]) == Merge(stored, Together(p, q)).(plain := map[]);
  }

  // ---------------------------------------------------------------- creation

  /** BackupJobCreate is WellFormed plus what its fields and the cron check demand. */
  predicate CreateOk(job: Job, cronOk: string -> bool) {
    WellFormed(job) && (job.scheduleCron.Some? ==> job.scheduleCron.value != "" && cronOk(job.scheduleCron.value))
  }

  /** The rows a new job names: a server that is not deleted, a disk of that server, and an
      SQL instance that is not deleted, if any. */
  predicate ReferencesOk(db: Db, job: Job) {
    && job.serverId in db.servers && !db.servers[job.serverId]
    && job.diskId in db.disks && db.disks[job.diskId] == job.serverId
    && (job.sqlInstanceId.Some? ==> job.sqlInstanceId.value in db.instances && !db.instances[job.sqlInstanceId.value])
  }

  /** The answer to a creation: first the schema, then server, disk and SQL instance in turn. */
  function CreateCode(db: Db, job: Job, cronOk: string -> bool): Outcome {
    if Unfit(job) || !WindowAllowed(job.windowStart, job.windowEnd) || CheckOverride(job.remoteOverride).Some?
       || (job.scheduleCron.Some? && !cronOk(job.scheduleCron.value)) then Rejected(422)
    else if job.serverId !in db.servers then Rejected(404)
    else if db.servers[job.serverId] then Rejected(409)
    else if job.diskId !in db.disks then Rejected(404)
    else if db.disks[job.diskId] != job.serverId then Rejected(422)
    else if job.sqlInstanceId.Some? && job.sqlInstanceId.value !in db.instances then Rejected(404)
    else if job.sqlInstanceId.Some? && db.instances[job.sqlInstanceId.value] then Rejected(409)
    else Accepted
  }

  // ---------------------------------------------------------------- histories

  datatype Event =
    | JobCreated(job: Job)
    | JobPatched(id: nat, patch: Patch)
    | JobDeleted(id: nat)
    | ScheduleErrorReported(id: nat, active: bool)
    | WorkerJudged(id: nat, verdict: MissedRuns.Verdict)
    | RunCreated(runId: nat, jobId: nat, manual: bool)
    | RunEnded(runId: nat)
    | ServerCreated(serverId: nat)
    | ServerDeleted(serverId: nat)
    | DiskCreated(diskId: nat, onServer: nat)
    | InstanceCreated(instanceId: nat)
    | InstanceDeleted(instanceId: nat)
    | AlertByAdmin(alertId: nat, action: Alerts.AdminAction)

  ghost function Apply(db: Db, e: Event, cronOk: string -> bool): Db {
    match e
    case JobCreated(job) =>
      if CreateOk(job, cronOk) && ReferencesOk(db, job)
      then db.(jobs := db.jobs[db.nextId := job], nextId := db.nextId + 1)
      else db
    case JobPatched(id, p) => if Acceptable(db, id, p, cronOk) then ApplyPatch(db, id, p) else db
    case JobDeleted(id) =>
      if id !in db.jobs || Busy(db, id) then db
      else db.(jobs := db.jobs - {id}, alerts := Alerts.DeleteParent(db.alerts, Alerts.BackupJob, id))
    case ScheduleErrorReported(id, active) =>
      if id !in db.jobs || db.jobs[id].mode != JobRuns.SCHEDULE then db
      else db.(alerts := if active then Alerts.Raise(db.alerts, MissedRuns.CronKey(id), Alerts.Critical)
                         else Alerts.Resolve(db.alerts, MissedRuns.CronKey(id), None))
    case WorkerJudged(id, verdict) =>
      if id !in db.jobs || !db.jobs[id].enabled || db.jobs[id].mode != JobRuns.SCHEDULE || Busy(db, id) then db
      else db.(alerts := MissedRuns.JobStep(db.alerts, id, verdict))
    case RunCreated(r, jobId, manual) =>
      if r in db.activeRuns || jobId !in db.jobs || !db.jobs[jobId].enabled || Busy(db, jobId)
         || (manual && db.jobs[jobId].mode == JobRuns.WATCH) then db
      else db.(activeRuns := db.activeRuns[r := ActiveRun(jobId, manual)])
    case RunEnded(r) => db.(activeRuns := db.activeRuns - {r})
    case ServerCreated(i) => if i in db.servers then db else db.(servers := db.servers[i := false])
    case ServerDeleted(i) => if i in db.servers then db.(servers := db.servers[i := true]) else db
    case DiskCreated(d, i) => if d in db.disks || i !in db.servers then db else db.(disks := db.disks[d := i])
    case InstanceCreated(i) => if i in db.instances then db else db.(instances := db.instances[i := false])
    case InstanceDeleted(i) =>
      if i !in db.instances
         || exists j :: j in db.jobs && db.jobs[j].enabled && db.jobs[j].sqlInstanceId == Some(i) then db
      else db.(instances := db.instances[i := true])
    case AlertByAdmin(id, action) => db.(alerts := Alerts.Admin(db.alerts, id, action))
  }

  ghost function After(events: seq<Event>, cronOk: string -> bool): Db {
    if events == [] then EMPTY
    else Apply(After(events[..|events| - 1], cronOk), events[|events| - 1], cronOk)
  }

  /** What the rows around a job go through. Servers, disks and SQL instances are never removed,
      only marked deleted; a SQL instance is not, as long as an enabled job names it. */
  lemma SurroundingsMean(db: Db, e: Event, cronOk: string -> bool)
    ensures
      var after := Apply(db, e, cronOk);
      match e
      case ServerCreated(i) => after == if i in db.servers then db else db.(servers := db.servers[i := false])
      case ServerDeleted(i) => after == if i in db.servers then db.(servers := db.servers[i := true]) else db
      case DiskCreated(d, i) =>
        after == if d !in db.disks && i in db.servers then db.(disks := db.disks[d := i]) else db
      case InstanceCreated(i) => after == if i in db.instances then db else db.(instances := db.instances[i := false])
      case InstanceDeleted(i) =>
        after == if i in db.instances
                    && forall j | j in db.jobs && db.jobs[j].enabled :: db.jobs[j].sqlInstanceId != Some(i)
                 then db.(instances := db.instances[i := true]) else db
      case RunEnded(r) => after == db.(activeRuns := db.activeRuns - {r})
      case RunCreated(r, jobId, manual) =>
        && after.(activeRuns := db.activeRuns) == db
        && after.activeRuns == (
             if r !in db.activeRuns && jobId in db.jobs && db.jobs[jobId].enabled
                && (forall k | k in db.activeRuns :: db.activeRuns[k].jobId != jobId)
                && (manual ==> db.jobs[jobId].mode == JobRuns.SCHEDULE)
             then db.activeRuns[r := ActiveRun(jobId, manual)] else db.activeRuns)
      case JobDeleted(id) =>
        if id in db.jobs && forall k | k in db.activeRuns :: db.activeRuns[k].jobId != id then
          && after.(alerts := db.alerts) == db.(jobs := db.jobs - {id})
          && Alerts.ParentGone(db.alerts, Alerts.BackupJob, id, after.alerts)
        else after == db
      case _ => true
  {
    if e.JobDeleted? {
      Alerts.ParentGoneMeans(db.alerts, Alerts.BackupJob, e.id);
    }
  }

  ghost predicate JobsOk(db: Db) {
    forall id | id in db.jobs :: id < db.nextId && WellFormed(db.jobs[id])
  }

  ghost predicate RunsOk(db: Db) {
    forall r | r in db.activeRuns :: db.activeRuns[r].jobId in db.jobs
      && (db.activeRuns[r].manual ==> db.jobs[db.activeRuns[r].jobId].mode == JobRuns.SCHEDULE)
  }

  ghost predicate CronAlertsOk(db: Db) {
    Alerts.Valid(db.alerts) &&
    forall id: nat | Alerts.HasActive(db.alerts, MissedRuns.CronKey(id)) ::
      id in db.jobs && db.jobs[id].mode == JobRuns.SCHEDULE
  }

  lemma PatchKeepsRuns(db: Db, id: nat, p: Patch)
    requires RunsOk(db) && id in db.jobs && !p.mode.Null? && !(ChangesMode(db.jobs[id], p) && Busy(db, id))
    ensures RunsOk(ApplyPatch(db, id, p))
  {
    forall r | r in db.activeRuns && db.activeRuns[r].jobId == id
      ensures Merge(db.jobs[id], p).mode == db.jobs[id].mode
    {
      assert Busy(db, id);
    }
  }

  lemma PatchKeepsCronAlerts(db: Db, id: nat, p: Patch)
    requires CronAlertsOk(db) && id in db.jobs && !p.mode.Null?
    ensures CronAlertsOk(ApplyPatch(db, id, p))
  {
    Alerts.ResolveEffect(db.alerts, MissedRuns.CronKey(id), None);
  }

  lemma WriterKeepsCronAlerts(db: Db, e: Event, cronOk: string -> bool)
    requires CronAlertsOk(db) && (e.ScheduleErrorReported? || e.WorkerJudged?)
    ensures CronAlertsOk(Apply(db, e, cronOk))
  {
    match e
    case ScheduleErrorReported(id, _) =>
      Alerts.RaiseEffect(db.alerts, MissedRuns.CronKey(id), Alerts.Critical);
      Alerts.ResolveEffect(db.alerts, MissedRuns.CronKey(id), None);
    case WorkerJudged(id, verdict) => MissedRuns.JobStepEffect(db.alerts, id, verdict);
  }

  lemma StepKeepsCronAlerts(db: Db, e: Event, cronOk: string -> bool)
    requires CronAlertsOk(db) && (forall id | id in db.jobs :: id < db.nextId)
    ensures CronAlertsOk(Apply(db, e, cronOk))
  {
    match e
    case JobPatched(id, p) => if Acceptable(db, id, p, cronOk) { PatchKeepsCronAlerts(db, id, p); }
    case JobDeleted(id) => Alerts.DeleteParentEffect(db.alerts, Alerts.BackupJob, id);
    case ScheduleErrorReported(_, _) => WriterKeepsCronAlerts(db, e, cronOk);
    case WorkerJudged(_, _) => WriterKeepsCronAlerts(db, e, cronOk);
    case AlertByAdmin(id, action) => Alerts.AdminEffect(db.alerts, id, action);
    case _ =>
  }

  lemma JobEventKeepsRuns(db: Db, e: Event, cronOk: string -> bool)
    requires RunsOk(db) && JobsOk(db) && (e.JobCreated? || e.JobPatched? || e.JobDeleted?)
    ensures RunsOk(Apply(db, e, cronOk)) && JobsOk(Apply(db, e, cronOk))
  {
    match e
    case JobCreated(_) =>
    case JobPatched(id, p) => if Acceptable(db, id, p, cronOk) { PatchKeepsRuns(db, id, p); }
    case JobDeleted(id) =>
      if id in db.jobs && !Busy(db, id) {
        assert forall r | r in db.activeRuns :: db.activeRuns[r].jobId != id;
      }
  }

  lemma StepKeepsRuns(db: Db, e: Event, cronOk: string -> bool)
    requires RunsOk(db) && JobsOk(db)
    ensures RunsOk(Apply(db, e, cronOk)) && JobsOk(Apply(db, e, cronOk))
  {
    if e.JobCreated? || e.JobPatched? || e.JobDeleted? {
      JobEventKeepsRuns(db, e, cronOk);
    }
  }

  /** With each handler one atomic step: every stored job is well formed, every active
      manual run belongs to a SCHEDULE job, and JOB_CRON_INVALID is ACTIVE only on
      SCHEDULE jobs. */
  lemma {:induction false} EveryReachableState(events: seq<Event>, cronOk: string -> bool)
    ensures
      var db := After(events, cronOk);
      JobsOk(db) && RunsOk(db) && CronAlertsOk(db)
  {
    if events != [] {
      var prefix, e := events[..|events| - 1], events[|events| - 1];
      EveryReachableState(prefix, cronOk);
      StepKeepsCronAlerts(After(prefix, cronOk), e, cronOk);
      StepKeepsRuns(After(prefix, cronOk), e, cronOk);
    }
  }

  /** JOB_MISSED is not so careful: moving a job to WATCH leaves it ACTIVE, and no later
      worker tick looks at the job again. */
  lemma JobMissedSurvivesWatch(db: Db, id: nat, p: Patch, cronOk: string -> bool, verdict: MissedRuns.Verdict)
    requires Alerts.Valid(db.alerts) && Acceptable(db, id, p, cronOk) && p.mode == Set(JobRuns.WATCH)
    requires Alerts.HasActive(db.alerts, MissedRuns.MissedKey(id))
    ensures
      var after := Apply(db, JobPatched(id, p), cronOk);
      && Alerts.HasActive(after.alerts, MissedRuns.MissedKey(id))
      && Apply(after, WorkerJudged(id, verdict), cronOk) == after
  {
    Alerts.ResolveEffect(db.alerts, MissedRuns.CronKey(id), None);
  }

  // ---------------------------------------------------------------- on the stored rows

  class Backend {
    var jobs: map<nat, Job>
    var nextId: nat
    var activeRuns: map<nat, ActiveRun>
    var servers: map<nat, bool>     // whether the server is deleted
    var disks: map<nat, nat>        // the disk's server
    var instances: map<nat, bool>   // whether the instance is deleted
    const alerts: AlertTable.Table

    constructor ()
      ensures fresh(alerts) && View() == EMPTY
    {
      jobs, nextId, activeRuns, servers, disks, instances := map[], 0, map[], map[], map[], map[];
      alerts := new AlertTable.Table();
    }

    function View(): Db
      reads this, alerts
    {
      Db(jobs, nextId, activeRuns, servers, disks, instances, alerts.rows)
    }

    /** The hours' ranges, then _check_copy_window. */
    method CheckCopyWindow(start: Option<int>, end: Option<int>) returns (ok: bool)
      ensures ok <==> WindowOk(start, end)
      ensures ok <==> WindowAllowed(start, end)
    {
      if start.Some? && (start.value < 0 || start.value > 23) {
        return false;
      }
      if end.Some? && (end.value < 0 || end.value > 23) {
        return false;
      }
      if (start == None) != (end == None) {
        return false;
      }
      if start.Some? && start == end {
        return false;
      }
      return true;
    }

    /** The setattr loop over the fields that were sent. A NULL for a column that cannot be
        NULL is left to the flush. */
    method SetAttributes(stored: Job, p: Patch) returns (job: Job)
      ensures job == Merge(stored, p)
    {
      var enabled, mode, backupType := stored.enabled, stored.mode, stored.backupType;
      if p.enabled.Set? { enabled := p.enabled.value; }
      if p.mode.Set? { mode := p.mode.value; }
      if p.backupType.Set? { backupType := p.backupType.value; }
      var scheduleCron := SetNullable(stored.scheduleCron, p.scheduleCron);
      var sourcePath := SetNullable(stored.sourcePath, p.sourcePath);
      var watchDirectory := SetNullable(stored.watchDirectory, p.watchDirectory);
      var sqlInstanceId := SetNullable(stored.sqlInstanceId, p.sqlInstanceId);
      var verificationMethod := SetNullable(stored.verificationMethod, p.verificationMethod);
      var databaseName := SetNullable(stored.databaseName, p.databaseName);
      var windowStart := SetNullable(stored.windowStart, p.windowStart);
      var windowEnd := SetNullable(stored.windowEnd, p.windowEnd);
      var remoteOverride := SetNullable(stored.remoteOverride, p.remoteOverride);
      var plain := stored.plain + map c | c in p.plain && p.plain[c].Some? :: p.plain[c].value;
      return Job(stored.serverId, stored.diskId, enabled, mode, backupType, scheduleCron, sourcePath,
                 watchDirectory, sqlInstanceId, verificationMethod, databaseName, windowStart, windowEnd,
                 remoteOverride, plain);
    }

    method SetNullable<T>(stored: Option<T>, f: Field<T>) returns (value: Option<T>)
      ensures value == f.Over(stored)
    {
      if f.Unset? {
        return stored;
      }
      return if f.Set? then Some(f.value) else None;
    }

    /** BackupJobUpdate's own validators. */
    method CheckSchema(p: Patch, cronOk: string -> bool) returns (ok: bool)
      ensures ok <==> SchemaOk(p, cronOk)
      ensures ok <==> !SchemaRefuses(p, cronOk)
    {
      if p.scheduleCron == Set("") || p.sourcePath == Set("") || p.watchDirectory == Set("") {
        return false;
      }
      var window := CheckCopyWindow(Given(p.windowStart), Given(p.windowEnd));
      if !window {
        return false;
      }
      if p.scheduleCron.Set? && !cronOk(p.scheduleCron.value) {
        return false;
      }
      return CheckOverride(Given(p.remoteOverride)) == None;
    }

    method CreateBackupJob(job: Job, cronOk: string -> bool) returns (outcome: Outcome)
      modifies this`jobs, this`nextId
      ensures View() == Apply(old(View()), JobCreated(job), cronOk)
      ensures outcome.Accepted? <==> CreateOk(job, cronOk) && ReferencesOk(old(View()), job)
      ensures outcome.Accepted? ==>
                View() == old(View()).(jobs := old(jobs)[old(nextId) := job], nextId := old(nextId) + 1)
      ensures outcome.Rejected? ==> View() == old(View())
      ensures outcome == CreateCode(old(View()), job, cronOk)
    {
      var merged := CheckMerged(job);
      if !merged {
        return Rejected(422);
      }
      var window := CheckCopyWindow(job.windowStart, job.windowEnd);
      if !window {
        return Rejected(422);
      }
      if job.scheduleCron.Some? && !cronOk(job.scheduleCron.value) {
        return Rejected(422);
      }
      if CheckOverride(job.remoteOverride).Some? {
        return Rejected(422);
      }
      if job.serverId !in servers {
        return Rejected(404);
      }
      if servers[job.serverId] {
        return Rejected(409);
      }
      if job.diskId !in disks {
        return Rejected(404);
      }
      if disks[job.diskId] != job.serverId {
        return Rejected(422);
      }
      if job.sqlInstanceId.Some? {
        if job.sqlInstanceId.value !in instances {
          return Rejected(404);
        }
        if instances[job.sqlInstanceId.value] {
          return Rejected(409);
        }
      }
      jobs := jobs[nextId := job];
      nextId := nextId + 1;
      return Accepted;
    }

    /** The router's checks on the merged row, in order. */
    method CheckMerged(job: Job) returns (ok: bool)
      ensures ok <==> ModeOk(job) && VerificationOk(job)
      ensures ok <==> !Unfit(job)
    {
      if job.sqlInstanceId.Some? && job.verificationMethod == None {
        return false;
      }
      if job.sqlInstanceId.Some? && (job.databaseName == None || job.databaseName.value == "") {
        return false;
      }
      match job.mode {
      case SCHEDULE =>
        if job.scheduleCron == None || job.scheduleCron.value == "" {
          return false;
        }
        if job.sourcePath == None || job.sourcePath.value == "" {
          return false;
        }
        if job.watchDirectory.Some? {
          return false;
        }
      case WATCH =>
        if job.watchDirectory == None || job.watchDirectory.value == "" {
          return false;
        }
        if job.scheduleCron.Some? || job.sourcePath.Some? {
          return false;
        }
        if job.backupType == TRANSACTION_LOG || job.backupType == CUSTOM {
          return false;
        }
      }
      return true;
    }

    /** What the database checks: NOT NULL columns, the foreign key, the CHECK constraints. */
    method CheckFlush(merged: Job, p: Patch) returns (ok: bool)
      ensures ok <==> !NullsNotNull(p) && (p.sqlInstanceId.Set? ==> p.sqlInstanceId.value in instances)
                      && WindowOk(merged.windowStart, merged.windowEnd)
    {
      if p.enabled.Null? || p.mode.Null? || p.backupType.Null? || exists c :: c in p.plain && p.plain[c] == None {
        return false;
      }
      if p.sqlInstanceId.Set? && p.sqlInstanceId.value !in instances {
        return false;
      }
      ok := CheckCopyWindow(merged.windowStart, merged.windowEnd);
    }

    /** A rejected PATCH leaves everything as it was. */
    method UpdateBackupJob(id: nat, p: Patch, cronOk: string -> bool) returns (outcome: Outcome)
      requires id in jobs ==> WellFormed(jobs[id])
      requires Alerts.Valid(alerts.rows)
      modifies this`jobs, alerts
      ensures outcome.Accepted? <==> Acceptable(old(View()), id, p, cronOk)
      ensures outcome.Accepted? ==> View() == ApplyPatch(old(View()), id, p)
      ensures outcome.Rejected? ==> View() == old(View())
      ensures outcome == Rejected(422) <==> SchemaRefuses(p, cronOk)
      ensures outcome == Rejected(404) <==> !SchemaRefuses(p, cronOk) && id !in old(jobs)
      ensures outcome.Rejected? ==> outcome.code == 422 || outcome.code == 404 || outcome.code == 409
    {
      var schema := CheckSchema(p, cronOk);
      if !schema {
        return Rejected(422);
      }
      if id !in jobs {
        return Rejected(404);
      }
      var job := jobs[id];
      if !p.mode.Unset? && p.mode != Set(job.mode) && exists r :: r in activeRuns && activeRuns[r].jobId == id {
        return Rejected(409);
      }
      var merged := SetAttributes(job, p);
      if !p.mode.Null? {
        var ok := CheckMerged(merged);
        if !ok {
          return Rejected(409);
        }
      }
      var flushed := CheckFlush(merged, p);
      if !flushed {
        return Rejected(409);
      }
      jobs := jobs[id := merged];
      if !p.scheduleCron.Unset? || (!p.mode.Unset? && merged.mode != JobRuns.SCHEDULE) {
        var _ := alerts.ResolveActiveAlert(MissedRuns.CronKey(id), None);
      }
      return Accepted;
    }

    method ReportScheduleError(id: nat, active: bool) returns (outcome: Outcome)
      requires Alerts.Valid(alerts.rows)
      modifies alerts
      ensures forall cronOk: string -> bool :: View() == Apply(old(View()), ScheduleErrorReported(id, active), cronOk)
      ensures outcome.Accepted? <==> id in jobs && jobs[id].mode == JobRuns.SCHEDULE
      ensures outcome == Rejected(404) <==> id !in jobs
      ensures outcome == Rejected(409) <==> id in jobs && jobs[id].mode == JobRuns.WATCH
      ensures outcome.Accepted? ==>
                Alerts.OnlyAlert(old(alerts.rows), Alerts.Key(Alerts.BackupJob, id, Alerts.JobCronInvalid), active,
                                 Alerts.Critical, alerts.rows)
      ensures outcome.Rejected? ==> alerts.rows == old(alerts.rows)
    {
      Alerts.RaiseMeans(alerts.rows, Alerts.Key(Alerts.BackupJob, id, Alerts.JobCronInvalid), Alerts.Critical);
      Alerts.ResolveMeans(alerts.rows, Alerts.Key(Alerts.BackupJob, id, Alerts.JobCronInvalid), None, Alerts.Critical);
      if id !in jobs {
        return Rejected(404);
      }
      if jobs[id].mode != JobRuns.SCHEDULE {
        return Rejected(409);
      }
      if active {
        var _ := alerts.RaiseAlertIfAbsent(MissedRuns.CronKey(id), Alerts.Critical);
      } else {
        var _ := alerts.ResolveActiveAlert(MissedRuns.CronKey(id), None);
      }
      return Accepted;
    }
  }
}
