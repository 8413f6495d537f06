/** The alerts table (app/models/alert.py), the raise/resolve helper
    (app/routers/_alerts.py) and the admin endpoints (app/routers/alerts.py).

    A table is a sequence of rows: the index of a row is its id, because rows are
    inserted with increasing ids and never deleted. */
module Alerts {
  import opened Wrappers

  datatype EntityKind = Server | Disk | BackupJob | JobRun | RestoreOperation | BackupRecord

  datatype AlertType =
    | JobFailed | JobMissed | JobTimeout | VerificationFailed | BackupVerificationFailed
    | FtpCopyIntegrityFailed | DiskSpaceLow | DiskSpaceCritical | ServerUnreachable
    | AgentOffline | RestoreFailed | WatchFileLockTimeout | JobStuckPending | JobCronInvalid

  datatype Severity = Info | Warning | Critical

  datatype AlertStatus = Active | Acknowledged | Resolved

  /** What a caller of the helper names: entity_type, the id stored in that type's
      own column, and the alert type. */
  datatype Key = Key(kind: EntityKind, id: nat, alertType: AlertType)

  datatype Alert = Alert(
    alertType: AlertType,
    severity: Severity,
    kind: EntityKind,
    serverId: Option<nat>,
    diskId: Option<nat>,
    backupJobId: Option<nat>,
    jobRunId: Option<nat>,
    restoreOperationId: Option<nat>,
    backupRecordId: Option<nat>,
    status: AlertStatus,
    acknowledgedBy: Option<string>,
    resolvedNote: Option<string>)
  {
    /** The foreign-key column belonging to an entity type. */
    function Column(k: EntityKind): Option<nat> {
      match k
      case Server => serverId
      case Disk => diskId
      case BackupJob => backupJobId
      case JobRun => jobRunId
      case RestoreOperation => restoreOperationId
      case BackupRecord => backupRecordId
    }

    /** The generated column entity_key: COALESCE over the six columns, in order. */
    function EntityKey(): Option<nat> {
      if serverId.Some? then serverId
      else if diskId.Some? then diskId
      else if backupJobId.Some? then backupJobId
      else if jobRunId.Some? then jobRunId
      else if restoreOperationId.Some? then restoreOperationId
      else backupRecordId
    }

    /** The CHECK constraint at_most_one_entity_fk. */
    predicate AtMostOneFk() {
      (if serverId.Some? then 1 else 0) + (if diskId.Some? then 1 else 0)
      + (if backupJobId.Some? then 1 else 0) + (if jobRunId.Some? then 1 else 0)
      + (if restoreOperationId.Some? then 1 else 0) + (if backupRecordId.Some? then 1 else 0) <= 1
    }

    /** What the helper guarantees and the database cannot: no column other than the
        one of the row's own entity type is set. */
    ghost predicate HelperBuilt() {
      forall k: EntityKind :: k != kind ==> Column(k) == None
    }

    /** The WHERE clause of get_active_alert. */
    predicate Matches(key: Key) {
      status == Active && alertType == key.alertType && kind == key.kind && Column(key.kind) == Some(key.id)
    }

    /** ON DELETE SET NULL on one column. */
    function SetNull(k: EntityKind): Alert {
      match k
      case Server => this.(serverId := None)
      case Disk => this.(diskId := None)
      case BackupJob => this.(backupJobId := None)
      case JobRun => this.(jobRunId := None)
      case RestoreOperation => this.(restoreOperationId := None)
      case BackupRecord => this.(backupRecordId := None)
    }
  }

  /** The row the helper constructs. */
  function NewAlert(key: Key, severity: Severity): Alert {
    var only := (k: EntityKind) => if k == key.kind then Some(key.id) else None;
    Alert(key.alertType, severity, key.kind, only(Server), only(Disk), only(BackupJob), only(JobRun),
          only(RestoreOperation), only(BackupRecord), Active, None, None)
  }

  /** Two rows the partial unique index uq_alerts_active_dedupe refuses to hold
      together. A NULL entity_key never collides. */
  predicate Collide(a: Alert, b: Alert) {
    a.status == Active && b.status == Active && a.kind == b.kind && a.alertType == b.alertType &&
    a.EntityKey().Some? && a.EntityKey() == b.EntityKey()
  }

  /** The same with the row's own foreign-key column in place of COALESCE. */
  predicate SameOwner(a: Alert, b: Alert) {
    a.status == Active && b.status == Active && a.kind == b.kind && a.alertType == b.alertType &&
    a.Column(a.kind).Some? && a.Column(a.kind) == b.Column(b.kind)
  }

  ghost predicate IndexOk(rows: seq<Alert>) {
    forall i, j {:trigger Collide(rows[i], rows[j])} :: 0 <= i < j < |rows| ==> !Collide(rows[i], rows[j])
  }

  ghost predicate OwnColumnUnique(rows: seq<Alert>) {
    forall i, j :: 0 <= i < j < |rows| ==> !SameOwner(rows[i], rows[j])
  }

  ghost predicate AllHelperBuilt(rows: seq<Alert>) {
    forall i :: 0 <= i < |rows| ==> rows[i].HelperBuilt()
  }

  ghost predicate Valid(rows: seq<Alert>) {
    AllHelperBuilt(rows) && IndexOk(rows)
  }

  ghost predicate HasActive(rows: seq<Alert>, key: Key) {
    exists i {:trigger rows[i].Matches(key)} :: 0 <= i < |rows| && rows[i].Matches(key)
  }

  /** One ACTIVE alert for the key, the existing one if there is one. */
  ghost function Raise(rows: seq<Alert>, key: Key, severity: Severity): seq<Alert> {
    if HasActive(rows, key) then rows else rows + [NewAlert(key, severity)]
  }

  function ResolveRow(a: Alert, note: Option<string>): Alert {
    a.(status := Resolved, resolvedNote := note)
  }

  /** The ACTIVE alert of the key, if any, becomes RESOLVED. */
  function Resolve(rows: seq<Alert>, key: Key, note: Option<string>): (r: seq<Alert>)
    ensures |r| == |rows|
  {
    seq(|rows|, i requires 0 <= i < |rows| =>
      if rows[i].Matches(key) then ResolveRow(rows[i], note) else rows[i])
  }

  /** What an admin does to one row through POST acknowledge / POST resolve. */
  datatype AdminAction = Acknowledge(username: string) | ResolveIt(note: Option<string>)

  /** None is the 409 answer. */
  function AdminRow(a: Alert, action: AdminAction): Option<Alert> {
    if a.status == Resolved then None
    else match action
      case Acknowledge(username) => Some(a.(status := Acknowledged, acknowledgedBy := Some(username)))
      case ResolveIt(note) => Some(ResolveRow(a, note))
  }

  function Admin(rows: seq<Alert>, id: nat, action: AdminAction): (r: seq<Alert>)
    ensures |r| == |rows|
  {
    if id < |rows| && AdminRow(rows[id], action).Some?
    then rows[id := AdminRow(rows[id], action).value]
    else rows
  }

  /** The parent entity is deleted: every reference to it becomes NULL. */
  function DeleteParent(rows: seq<Alert>, kind: EntityKind, id: nat): (r: seq<Alert>)
    ensures |r| == |rows|
  {
    seq(|rows|, i requires 0 <= i < |rows| =>
      if rows[i].Column(kind) == Some(id) then rows[i].SetNull(kind) else rows[i])
  }

  // ---------------------------------------------------------------- the dedupe index

  lemma KeyIsOwnColumn(a: Alert)
    requires a.HelperBuilt()
    ensures a.EntityKey() == a.Column(a.kind)
    ensures a.AtMostOneFk()
  {
    assert a.kind != Server ==> a.Column(Server) == None;
    assert a.kind != Disk ==> a.Column(Disk) == None;
    assert a.kind != BackupJob ==> a.Column(BackupJob) == None;
    assert a.kind != JobRun ==> a.Column(JobRun) == None;
    assert a.kind != RestoreOperation ==> a.Column(RestoreOperation) == None;
    assert a.kind != BackupRecord ==> a.Column(BackupRecord) == None;
  }

  /** The place of a column in the COALESCE. */
  function Place(k: EntityKind): nat {
    match k
    case Server => 0
    case Disk => 1
    case BackupJob => 2
    case JobRun => 3
    case RestoreOperation => 4
    case BackupRecord => 5
  }

  /** The generated key is the first column that is set. */
  lemma KeyIsFirstSet(a: Alert, k: EntityKind)
    requires forall j: EntityKind | Place(j) < Place(k) :: a.Column(j) == None
    ensures a.Column(k).Some? ==> a.EntityKey() == a.Column(k)
    ensures k == BackupRecord ==> a.EntityKey() == a.Column(k)
  {
    assert Place(Server) == 0 && Place(Disk) == 1 && Place(BackupJob) == 2 && Place(JobRun) == 3;
    assert Place(RestoreOperation) == 4 && Place(BackupRecord) == 5;
  }

  predicate Apart(a: Alert, j: EntityKind, k: EntityKind) { a.Column(j) == None || a.Column(k) == None }

  /** The CHECK holds iff no two columns are set. */
  lemma CheckMeans(a: Alert)
    ensures a.AtMostOneFk() <==> forall j: EntityKind, k: EntityKind | j != k :: Apart(a, j, k)
  {
    if forall j: EntityKind, k: EntityKind | j != k :: Apart(a, j, k) {
      assert Apart(a, Server, Disk) && Apart(a, Server, BackupJob) && Apart(a, Server, JobRun);
      assert Apart(a, Server, RestoreOperation) && Apart(a, Server, BackupRecord) && Apart(a, Disk, BackupJob);
      assert Apart(a, Disk, JobRun) && Apart(a, Disk, RestoreOperation) && Apart(a, Disk, BackupRecord);
      assert Apart(a, BackupJob, JobRun) && Apart(a, BackupJob, RestoreOperation) && Apart(a, BackupJob, BackupRecord);
      assert Apart(a, JobRun, RestoreOperation) && Apart(a, JobRun, BackupRecord);
      assert Apart(a, RestoreOperation, BackupRecord);
    }
  }

  /** On a table built by the helper the COALESCE index is exactly uniqueness of
      (entity_type, own column, alert_type) among ACTIVE rows. */
  lemma IndexIsOwnColumnUniqueness(rows: seq<Alert>)
    requires AllHelperBuilt(rows)
    ensures IndexOk(rows) <==> OwnColumnUnique(rows)
  {
    forall i, j | 0 <= i < j < |rows|
      ensures Collide(rows[i], rows[j]) <==> SameOwner(rows[i], rows[j])
    {
      KeyIsOwnColumn(rows[i]);
      KeyIsOwnColumn(rows[j]);
    }
  }

  /** Without the helper the index blocks too much: rows the CHECK accepts can collide
      without sharing an owner, although they are about two different entities. */
  lemma WithoutHelperTheIndexOverblocks()
    ensures exists rows: seq<Alert> ::
              && (forall i :: 0 <= i < |rows| ==> rows[i].AtMostOneFk())
              && OwnColumnUnique(rows) && !IndexOk(rows)
  {
    var a := NewAlert(Key(Disk, 7, DiskSpaceLow), Warning);
    var misfiled := a.(diskId := None, serverId := Some(7));
    var rows := [a, misfiled];
    assert Collide(rows[0], rows[1]);
    assert !IndexOk(rows);
    assert OwnColumnUnique(rows);
  }

  // ---------------------------------------------------------------- effect of each write

  lemma NewAlertIsHelperBuilt(key: Key, severity: Severity)
    ensures NewAlert(key, severity).HelperBuilt()
    ensures forall k :: NewAlert(key, severity).Matches(k) <==> k == key
  {
  }

  /** The partial unique index refuses the helper's row exactly when get_active_alert
      finds one, so the read-then-insert of the helper can only fail on a lost race. */
  lemma InsertRefusedIffActive(rows: seq<Alert>, key: Key, severity: Severity)
    requires Valid(rows)
    ensures IndexOk(rows + [NewAlert(key, severity)]) <==> !HasActive(rows, key)
  {
    var a := NewAlert(key, severity);
    var rows' := rows + [a];
    NewAlertIsHelperBuilt(key, severity);
    KeyIsOwnColumn(a);
    forall i | 0 <= i < |rows|
      ensures Collide(rows[i], a) <==> rows[i].Matches(key)
    {
      KeyIsOwnColumn(rows[i]);
    }
    if HasActive(rows, key) {
      var i :| 0 <= i < |rows| && rows[i].Matches(key);
      assert Collide(rows'[i], rows'[|rows|]);
    } else {
      forall i, j | 0 <= i < j < |rows'|
        ensures !Collide(rows'[i], rows'[j])
      {
        if j < |rows| {
          assert !Collide(rows[i], rows[j]);
        }
      }
    }
  }

  lemma RaiseEffect(rows: seq<Alert>, key: Key, severity: Severity)
    requires Valid(rows)
    ensures Valid(Raise(rows, key, severity))
    ensures forall k :: HasActive(Raise(rows, key, severity), k) <==> k == key || HasActive(rows, k)
    ensures rows <= Raise(rows, key, severity)
  {
    var rows' := Raise(rows, key, severity);
    NewAlertIsHelperBuilt(key, severity);
    InsertRefusedIffActive(rows, key, severity);
    forall k
      ensures HasActive(rows', k) <==> k == key || HasActive(rows, k)
    {
      if HasActive(rows, k) {
        var i :| 0 <= i < |rows| && rows[i].Matches(k);
        assert rows'[i].Matches(k);
      }
      if k == key && !HasActive(rows, key) {
        assert rows'[|rows|].Matches(k);
      }
    }
  }

  /** Overwriting rows without making any of them match more keys keeps the table valid. */
  lemma WeakenedRowsStayValid(rows: seq<Alert>, rows': seq<Alert>)
    requires Valid(rows) && |rows'| == |rows|
    requires forall i :: 0 <= i < |rows| ==>
               rows'[i] == rows[i]
               || (rows'[i].HelperBuilt() && (rows'[i].status != Active || rows'[i].EntityKey() == None))
    ensures Valid(rows')
  {
    forall i, j | 0 <= i < j < |rows'|
      ensures !Collide(rows'[i], rows'[j])
    {
      assert !Collide(rows[i], rows[j]);
    }
  }

  /** Every reference to the deleted parent is NULL, whatever the row's status; nothing else of
      any row changes. */
  ghost predicate ParentGone(rows: seq<Alert>, kind: EntityKind, id: nat, after: seq<Alert>) {
    && |after| == |rows|
    && forall i: nat | i < |rows| ::
         && after[i].alertType == rows[i].alertType && after[i].severity == rows[i].severity
         && after[i].kind == rows[i].kind && after[i].status == rows[i].status
         && after[i].acknowledgedBy == rows[i].acknowledgedBy && after[i].resolvedNote == rows[i].resolvedNote
         && forall k: EntityKind ::
              after[i].Column(k) == if k == kind && rows[i].Column(k) == Some(id) then None else rows[i].Column(k)
  }

  lemma ParentGoneMeans(rows: seq<Alert>, kind: EntityKind, id: nat)
    ensures ParentGone(rows, kind, id, DeleteParent(rows, kind, id))
  {
  }

  /** The key's ACTIVE alert has this severity. */
  ghost predicate ActiveAs(rows: seq<Alert>, key: Key, severity: Severity) {
    exists i: nat :: i < |rows| && rows[i].Matches(key) && rows[i].severity == severity
  }

  /** Afterwards the key's alert is ACTIVE or it is not, every other alert is as before, and an
      alert that was not ACTIVE before has this severity. */
  ghost predicate OnlyAlert(rows: seq<Alert>, key: Key, active: bool, severity: Severity, after: seq<Alert>) {
    && Valid(after)
    && (forall k :: HasActive(after, k) <==> if k == key then active else HasActive(rows, k))
    && (active && HasActive(rows, key) ==> after == rows)
    && (active && !HasActive(rows, key) ==> rows <= after && |after| == |rows| + 1 && ActiveAs(after, key, severity))
  }

  lemma RaiseMeans(rows: seq<Alert>, key: Key, severity: Severity)
    requires Valid(rows)
    ensures OnlyAlert(rows, key, true, severity, Raise(rows, key, severity))
  {
    RaiseEffect(rows, key, severity);
    NewAlertIsHelperBuilt(key, severity);
    var after := Raise(rows, key, severity);
    if !HasActive(rows, key) {
      assert after[|rows|].Matches(key) && after[|rows|].severity == severity;
    }
  }

  lemma ResolveMeans(rows: seq<Alert>, key: Key, note: Option<string>, severity: Severity)
    requires Valid(rows)
    ensures OnlyAlert(rows, key, false, severity, Resolve(rows, key, note))
  {
    ResolveEffect(rows, key, note);
  }

  lemma MatchIsUnique(rows: seq<Alert>, key: Key, i: nat, j: nat)
    requires Valid(rows) && i < |rows| && j < |rows|
    requires rows[i].Matches(key) && rows[j].Matches(key)
    ensures i == j
  {
    KeyIsOwnColumn(rows[i]);
    KeyIsOwnColumn(rows[j]);
    assert Collide(rows[i], rows[j]) && Collide(rows[j], rows[i]);
  }

  lemma ResolveEffect(rows: seq<Alert>, key: Key, note: Option<string>)
    requires Valid(rows)
    ensures Valid(Resolve(rows, key, note))
    ensures forall k :: HasActive(Resolve(rows, key, note), k) <==> k != key && HasActive(rows, k)
  {
    var rows' := Resolve(rows, key, note);
    forall i | 0 <= i < |rows| && rows'[i] != rows[i]
      ensures rows'[i].HelperBuilt()
    {
      forall k: EntityKind | k != rows'[i].kind
        ensures rows'[i].Column(k) == None
      {
        assert rows[i].Column(k) == None;
      }
    }
    WeakenedRowsStayValid(rows, rows');
    forall k
      ensures HasActive(rows', k) <==> k != key && HasActive(rows, k)
    {
      if HasActive(rows', k) {
        var i :| 0 <= i < |rows'| && rows'[i].Matches(k);
        assert rows[i].Matches(k);
      }
      if k != key && HasActive(rows, k) {
        var i :| 0 <= i < |rows| && rows[i].Matches(k);
        assert rows'[i].Matches(k);
      }
    }
  }

  /** An admin action takes the row it hits out of the ACTIVE ones and touches no other. */
  lemma AdminEffect(rows: seq<Alert>, id: nat, action: AdminAction)
    requires Valid(rows)
    ensures Valid(Admin(rows, id, action))
    ensures forall k :: HasActive(Admin(rows, id, action), k) <==>
                        HasActive(rows, k) && !(id < |rows| && rows[id].Matches(k))
  {
    var rows' := Admin(rows, id, action);
    if id < |rows| && rows' != rows {
      forall k: EntityKind | k != rows'[id].kind
        ensures rows'[id].Column(k) == None
      {
        assert rows[id].Column(k) == None;
      }
      WeakenedRowsStayValid(rows, rows');
    }
    forall k
      ensures HasActive(rows', k) <==> HasActive(rows, k) && !(id < |rows| && rows[id].Matches(k))
    {
      if HasActive(rows', k) {
        var i :| 0 <= i < |rows'| && rows'[i].Matches(k);
        assert rows[i].Matches(k);
        if id < |rows| && rows[id].Matches(k) {
          MatchIsUnique(rows, k, i, id);
        }
      }
      if HasActive(rows, k) && !(id < |rows| && rows[id].Matches(k)) {
        var i :| 0 <= i < |rows| && rows[i].Matches(k);
        assert rows'[i].Matches(k);
      }
    }
  }

  lemma DeleteParentEffect(rows: seq<Alert>, kind: EntityKind, id: nat)
    requires Valid(rows)
    ensures Valid(DeleteParent(rows, kind, id))
    ensures forall k :: HasActive(DeleteParent(rows, kind, id), k) <==>
                        HasActive(rows, k) && !(k.kind == kind && k.id == id)
  {
    var rows' := DeleteParent(rows, kind, id);
    forall i | 0 <= i < |rows| && rows'[i] != rows[i]
      ensures rows'[i].HelperBuilt() && rows'[i].EntityKey() == None
    {
      assert rows[i].kind == kind;
      forall k: EntityKind
        ensures rows'[i].Column(k) == None
      {
        assert k != kind ==> rows[i].Column(k) == None;
      }
      KeyIsOwnColumn(rows'[i]);
    }
    WeakenedRowsStayValid(rows, rows');
    forall k
      ensures HasActive(rows', k) <==> HasActive(rows, k) && !(k.kind == kind && k.id == id)
    {
      if HasActive(rows', k) {
        var i :| 0 <= i < |rows'| && rows'[i].Matches(k);
        assert rows'[i] == rows[i];
      }
      if HasActive(rows, k) && !(k.kind == kind && k.id == id) {
        var i :| 0 <= i < |rows| && rows[i].Matches(k);
        if k.kind != kind {
          assert rows[i].Column(kind) == None;
        }
        assert rows'[i].Matches(k);
      }
    }
  }

  // ---------------------------------------------------------------- whole histories

  datatype Event =
    | Raised(key: Key, severity: Severity)
    | ResolvedByHelper(key: Key, note: Option<string>)
    | ByAdmin(id: nat, action: AdminAction)
    | ParentDeleted(kind: EntityKind, parentId: nat)

  ghost function Apply(rows: seq<Alert>, e: Event): seq<Alert> {
    match e
    case Raised(key, severity) => Raise(rows, key, severity)
    case ResolvedByHelper(key, note) => Resolve(rows, key, note)
    case ByAdmin(id, action) => Admin(rows, id, action)
    case ParentDeleted(kind, id) => DeleteParent(rows, kind, id)
  }

  ghost function After(events: seq<Event>): seq<Alert> {
    if events == [] then [] else Apply(After(events[..|events| - 1]), events[|events| - 1])
  }

  /** Whatever sequence of raises, resolves, admin actions and parent deletions reaches
      the table, get_active_alert never matches two rows. */
  lemma {:induction false} NeverTwoActive(events: seq<Event>)
    ensures Valid(After(events)) && OwnColumnUnique(After(events))
    ensures forall key: Key, i: nat, j: nat :: i < j < |After(events)| ==>
              !(After(events)[i].Matches(key) && After(events)[j].Matches(key))
  {
    if events != [] {
      NeverTwoActive(events[..|events| - 1]);
      var rows := After(events[..|events| - 1]);
      match events[|events| - 1]
      case Raised(key, severity) => RaiseEffect(rows, key, severity);
      case ResolvedByHelper(key, note) => ResolveEffect(rows, key, note);
      case ByAdmin(id, action) => AdminEffect(rows, id, action);
      case ParentDeleted(kind, id) => DeleteParentEffect(rows, kind, id);
    }
    var rows := After(events);
    IndexIsOwnColumnUniqueness(rows);
    forall key: Key, i: nat, j: nat | i < j < |rows|
      ensures !(rows[i].Matches(key) && rows[j].Matches(key))
    {
      if rows[i].Matches(key) && rows[j].Matches(key) {
        MatchIsUnique(rows, key, i, j);
      }
    }
  }

  lemma OneEventNeverReactivates(rows: seq<Alert>, e: Event)
    ensures |rows| <= |Apply(rows, e)|
    ensures forall i :: 0 <= i < |rows| && rows[i].status != Active ==> Apply(rows, e)[i].status != Active
    ensures forall i :: 0 <= i < |rows| ==> Apply(rows, e)[i].alertType == rows[i].alertType
                                            && Apply(rows, e)[i].kind == rows[i].kind
  {
  }

  /** No alert ever returns to ACTIVE, and no row is ever removed or renumbered. */
  lemma {:induction false} NoAlertReturnsToActive(events: seq<Event>, n: nat, id: nat)
    requires n <= |events| && id < |After(events[..n])|
    requires After(events[..n])[id].status != Active
    ensures id < |After(events)| && After(events)[id].status != Active
    decreases |events|
  {
    if n == |events| {
      assert events[..n] == events;
    } else {
      var prefix := events[..|events| - 1];
      assert prefix[..n] == events[..n];
      NoAlertReturnsToActive(prefix, n, id);
      OneEventNeverReactivates(After(prefix), events[|events| - 1]);
    }
  }
}
