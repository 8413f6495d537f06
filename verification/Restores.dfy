/** Restore operations (app/routers/restore_operations.py, app/schemas/restore_operation.py)
    and the deletion of SQL instances (app/routers/sql_instances.py). A PATCH reads the
    operation, checks the transition, and writes with a guarded UPDATE; creation and
    deletion check first and write later. */
module Restores {
  import opened Wrappers
  import Alerts
  import AlertTable

  datatype Status = PENDING | RUNNING | DONE | FAILED | CANCELLED

  predicate Terminal(s: Status) { s == DONE || s == FAILED || s == CANCELLED }

  datatype Restore = Restore(
    instanceId: nat, database: string, status: Status,
    startedAt: Option<int>, completedAt: Option<int>, log: Option<string>, errorMessage: Option<string>)
  {
    predicate Active() { !Terminal(status) }
  }

  datatype Db = Db(deleted: map<nat, bool>, restores: map<nat, Restore>, nextId: nat, alerts: seq<Alerts.Alert>)

  datatype Patch = Patch(
    status: Field<Status>, startedAt: Field<int>, completedAt: Field<int>,
    log: Field<string>, errorMessage: Field<string>)
  {
    predicate Empty() { status.Unset? && startedAt.Unset? && completedAt.Unset? && log.Unset? && errorMessage.Unset? }
  }

  predicate IsValidTransition(current: Status, next: Status) {
    if next == CANCELLED && current != PENDING then false
    else if Terminal(current) && !Terminal(next) then false
    else true
  }

  /** The transition check by itself would let a finished restore change its outcome. */
  lemma TransitionAloneIsNotFinal()
    ensures exists a, b :: Terminal(a) && a != b && IsValidTransition(a, b)
    ensures forall a, b | Terminal(a) && a != b :: IsValidTransition(a, b) <==> b == DONE || b == FAILED
  {
    assert IsValidTransition(DONE, FAILED);
  }

  /** A restore that is still active may take any status but CANCELLED, which only a PENDING one
      may; a finished one may only be called DONE or FAILED. */
  lemma TransitionMeans(a: Status, b: Status)
    ensures a == PENDING ==> IsValidTransition(a, b)
    ensures a == RUNNING ==> (IsValidTransition(a, b) <==> b != CANCELLED)
    ensures a == DONE || a == FAILED || a == CANCELLED ==> (IsValidTransition(a, b) <==> b == DONE || b == FAILED)
  {
  }

  // ---------------------------------------------------------------- PATCH, split at its await

  datatype Request = Request(id: nat, expected: Status, patch: Patch, now: int)

  function Read(db: Db, id: nat, patch: Patch, now: int): ReadOutcome<Request> {
    if id !in db.restores then Refused(404)
    else
      var expected := db.restores[id].status;
      if Terminal(expected) then Refused(409)
      else if patch.status.Set? && !IsValidTransition(expected, patch.status.value) then Refused(409)
      else Proceed(Request(id, expected, patch, now))
  }

  predicate Wins(db: Db, req: Request) {
    req.id in db.restores && db.restores[req.id].status == req.expected && !req.patch.status.Null?
  }

  function Written(r: Restore, req: Request): Restore {
    var p := req.patch;
    r.(status := if p.status.Set? then p.status.value else r.status,
       startedAt := p.startedAt.Over(r.startedAt),
       completedAt :=
         if p.completedAt.Unset? && p.status.Set? && (p.status.value == DONE || p.status.value == FAILED)
         then Some(req.now)
         else p.completedAt.Over(r.completedAt),
       log := p.log.Over(r.log),
       errorMessage := p.errorMessage.Over(r.errorMessage))
  }

  function FailedKey(id: nat): Alerts.Key { Alerts.Key(Alerts.RestoreOperation, id, Alerts.RestoreFailed) }

  ghost function Commit(db: Db, req: Request): (Db, Outcome) {
    if req.patch.Empty() then (db, Accepted)
    else if !Wins(db, req) then (db, Rejected(409))
    else
      (db.(restores := db.restores[req.id := Written(db.restores[req.id], req)],
           alerts := if req.patch.status == Set(FAILED)
                     then Alerts.Raise(db.alerts, FailedKey(req.id), Alerts.Critical)
                     else db.alerts),
       Accepted)
  }

  ghost function Atomic(db: Db, id: nat, patch: Patch, now: int): (Db, Outcome) {
    match Read(db, id, patch, now)
    case Refused(code) => (db, Rejected(code))
    case Proceed(req) => Commit(db, req)
  }

  /** A PATCH accepted at its UPDATE is the atomic one at that instant, and a rejected one
      changes nothing. The exception is again a body with no field set, which is accepted
      although the operation has finished meanwhile. */
  lemma PatchIsAtomic(before: Db, db: Db, id: nat, patch: Patch, now: int)
    requires Read(before, id, patch, now).Proceed?
    ensures
      var result := Commit(db, Read(before, id, patch, now).req);
      && (result.1.Rejected? ==> result.0 == db)
      && (result.1.Accepted? ==>
            (result == Atomic(db, id, patch, now) <==>
             !(patch.Empty() && (id !in db.restores || Terminal(db.restores[id].status)))))
  {
  }

  // ---------------------------------------------------------------- what a PATCH writes and answers

  predicate Stored<T(==)>(before: Option<T>, field: Field<T>, after: Option<T>) {
    && (field.Set? ==> after == Some(field.value))
    && (field.Null? ==> after == None)
    && (field.Unset? ==> after == before)
  }

  predicate Finishing(patch: Patch) { patch.status == Set(DONE) || patch.status == Set(FAILED) }

  /** The row after a PATCH; ending a restore without saying when stores the instant of the
      request. */
  predicate Patched(before: Restore, patch: Patch, now: int, after: Restore) {
    && after.instanceId == before.instanceId && after.database == before.database
    && after.status == (if patch.status.Set? then patch.status.value else before.status)
    && Stored(before.startedAt, patch.startedAt, after.startedAt)
    && Stored(before.log, patch.log, after.log)
    && Stored(before.errorMessage, patch.errorMessage, after.errorMessage)
    && (if Finishing(patch) && patch.completedAt.Unset? then after.completedAt == Some(now)
        else Stored(before.completedAt, patch.completedAt, after.completedAt))
  }

  predicate FieldsSent(patch: Patch) {
    !patch.status.Unset? || !patch.startedAt.Unset? || !patch.completedAt.Unset? || !patch.log.Unset?
    || !patch.errorMessage.Unset?
  }

  /** The guarded UPDATE: RESTORE_FAILED becomes ACTIVE with FAILED, and no other alert changes. */
  ghost predicate PatchDone(before: Db, id: nat, patch: Patch, expected: Status, now: int, after: Db,
                            outcome: Outcome)
  {
    && (outcome == Accepted || outcome == Rejected(409))
    && (outcome == Accepted <==>
          FieldsSent(patch) ==>
            id in before.restores && before.restores[id].status == expected && !patch.status.Null?)
    && if outcome == Accepted && FieldsSent(patch) then
         && id in before.restores && id in after.restores
         && after.(alerts := before.alerts) == before.(restores := before.restores[id := after.restores[id]])
         && Patched(before.restores[id], patch, now, after.restores[id])
         && if patch.status == Set(FAILED)
            then Alerts.OnlyAlert(before.alerts, Alerts.Key(Alerts.RestoreOperation, id, Alerts.RestoreFailed), true,
                                  Alerts.Critical, after.alerts)
            else after.alerts == before.alerts
       else after == before
  }

  lemma PatchMeans(db: Db, req: Request)
    requires Alerts.Valid(db.alerts)
    ensures PatchDone(db, req.id, req.patch, req.expected, req.now, Commit(db, req).0, Commit(db, req).1)
  {
    Alerts.RaiseMeans(db.alerts, Alerts.Key(Alerts.RestoreOperation, req.id, Alerts.RestoreFailed), Alerts.Critical);
  }

  /** The whole PATCH, uninterrupted. */
  ghost predicate PatchAnswer(before: Db, id: nat, patch: Patch, now: int, after: Db, outcome: Outcome) {
    if id !in before.restores then outcome == Rejected(404) && after == before
    else
      var status := before.restores[id].status;
      if (status != PENDING && status != RUNNING) || (status == RUNNING && patch.status == Set(CANCELLED))
      then outcome == Rejected(409) && after == before
      else PatchDone(before, id, patch, status, now, after, outcome)
  }

  lemma PatchAnswers(db: Db, id: nat, patch: Patch, now: int)
    requires Alerts.Valid(db.alerts)
    ensures
      var (after, outcome) := Atomic(db, id, patch, now);
      PatchAnswer(db, id, patch, now, after, outcome)
  {
    if id in db.restores {
      if patch.status.Set? {
        TransitionMeans(db.restores[id].status, patch.status.value);
      }
      PatchMeans(db, Request(id, db.restores[id].status, patch, now));
    }
  }

  // ---------------------------------------------------------------- creation and deletion

  ghost predicate HasActive(db: Db, instanceId: nat, database: string) {
    exists id :: id in db.restores && db.restores[id].instanceId == instanceId && db.restores[id].database == database
                 && db.restores[id].Active()
  }

  ghost predicate InstanceBusy(db: Db, instanceId: nat) {
    exists id :: id in db.restores && db.restores[id].instanceId == instanceId && db.restores[id].Active()
  }

  /** The checks of POST before its INSERT. */
  predicate MayCreate(db: Db, instanceId: nat, database: string, confirmation: string) {
    confirmation == database && instanceId in db.deleted && !db.deleted[instanceId]
  }

  function NewRestore(instanceId: nat, database: string): Restore {
    Restore(instanceId, database, PENDING, None, None, None, None)
  }

  /** The INSERT; the partial unique index refuses a second active one. */
  ghost function Insert(db: Db, instanceId: nat, database: string): Db {
    if HasActive(db, instanceId, database) then db
    else db.(restores := db.restores[db.nextId := NewRestore(instanceId, database)], nextId := db.nextId + 1)
  }

  ghost predicate MayDelete(db: Db, instanceId: nat) {
    instanceId in db.deleted && !db.deleted[instanceId] && !InstanceBusy(db, instanceId)
  }

  function MarkDeleted(db: Db, instanceId: nat): Db { db.(deleted := db.deleted[instanceId := true]) }

  // ---------------------------------------------------------------- histories

  /** Checks that have passed and whose write is still to come. */
  datatype Held = Patching(req: Request) | Creating(instanceId: nat, database: string) | Deleting(instanceId: nat)

  datatype State = State(db: Db, held: map<nat, Held>)

  datatype Event =
    | InstanceCreated(instanceId: nat)
    | PatchReads(ticket: nat, id: nat, patch: Patch, now: int)
    | PatchWrites(ticket: nat)
    | Creates(instanceId: nat, database: string, confirmation: string)
    | CreateChecks(ticket: nat, instanceId: nat, database: string, confirmation: string)
    | CreateWrites(ticket: nat)
    | Deletes(instanceId: nat)
    | DeleteChecks(ticket: nat, instanceId: nat)
    | DeleteWrites(ticket: nat)
    | AlertByAdmin(alertId: nat, action: Alerts.AdminAction)

  ghost function Apply(s: State, e: Event): State {
    match e
    case InstanceCreated(i) => if i in s.db.deleted then s else s.(db := s.db.(deleted := s.db.deleted[i := false]))
    case PatchReads(t, id, patch, now) =>
      if t in s.held || Read(s.db, id, patch, now).Refused? then s
      else s.(held := s.held[t := Patching(Read(s.db, id, patch, now).req)])
    case PatchWrites(t) =>
      if t !in s.held || !s.held[t].Patching? then s else State(Commit(s.db, s.held[t].req).0, s.held - {t})
    case Creates(i, database, confirmation) =>
      if MayCreate(s.db, i, database, confirmation) then s.(db := Insert(s.db, i, database)) else s
    case CreateChecks(t, i, database, confirmation) =>
      if t in s.held || !MayCreate(s.db, i, database, confirmation) then s
      else s.(held := s.held[t := Creating(i, database)])
    case CreateWrites(t) =>
      if t !in s.held || !s.held[t].Creating? then s
      else State(Insert(s.db, s.held[t].instanceId, s.held[t].database), s.held - {t})
    case Deletes(i) => if MayDelete(s.db, i) then s.(db := MarkDeleted(s.db, i)) else s
    case DeleteChecks(t, i) => if t in s.held || !MayDelete(s.db, i) then s else s.(held := s.held[t := Deleting(i)])
    case DeleteWrites(t) =>
      if t !in s.held || !s.held[t].Deleting? then s else State(MarkDeleted(s.db, s.held[t].instanceId), s.held - {t})
    case AlertByAdmin(id, action) => s.(db := s.db.(alerts := Alerts.Admin(s.db.alerts, id, action)))
  }

  const INITIAL := State(Db(map[], map[], 0, []), map[])

  ghost function After(events: seq<Event>): State {
    if events == [] then INITIAL else Apply(After(events[..|events| - 1]), events[|events| - 1])
  }

  // ---------------------------------------------------------------- the invariant

  ghost predicate OneActive(db: Db) {
    && (forall id | id in db.restores :: id < db.nextId)
    && (forall i, k | i in db.restores && k in db.restores && i != k
                    && db.restores[i].instanceId == db.restores[k].instanceId
                    && db.restores[i].database == db.restores[k].database ::
          !db.restores[i].Active() || !db.restores[k].Active())
  }

  ghost predicate AlertMeansFailed(db: Db) {
    Alerts.Valid(db.alerts)
    && forall id: nat | Alerts.HasActive(db.alerts, FailedKey(id)) ::
         id in db.restores && db.restores[id].status == FAILED
  }

  predicate ReqOk(req: Request) {
    !Terminal(req.expected) && (req.patch.status.Set? ==> IsValidTransition(req.expected, req.patch.status.value))
  }

  ghost predicate Inv(s: State) {
    && OneActive(s.db) && AlertMeansFailed(s.db)
    && forall t | t in s.held && s.held[t].Patching? :: ReqOk(s.held[t].req)
  }

  /** What may happen to a restore in one step. */
  ghost predicate Evolves(a: Restore, b: Restore) {
    && b.instanceId == a.instanceId && b.database == a.database
    && (Terminal(a.status) ==> b == a)
    && (b.status == CANCELLED ==> a.status == PENDING || a.status == CANCELLED)
  }

  lemma CommitOk(db: Db, req: Request)
    requires OneActive(db) && AlertMeansFailed(db) && ReqOk(req)
    ensures OneActive(Commit(db, req).0) && AlertMeansFailed(Commit(db, req).0)
    ensures forall id | id in db.restores ::
              id in Commit(db, req).0.restores && Evolves(db.restores[id], Commit(db, req).0.restores[id])
    ensures Commit(db, req).0.restores.Keys == db.restores.Keys
  {
    if Wins(db, req) && req.patch.status == Set(FAILED) {
      Alerts.RaiseEffect(db.alerts, FailedKey(req.id), Alerts.Critical);
    }
  }

  lemma InsertOk(db: Db, instanceId: nat, database: string)
    requires OneActive(db) && AlertMeansFailed(db)
    ensures OneActive(Insert(db, instanceId, database)) && AlertMeansFailed(Insert(db, instanceId, database))
    ensures forall id | id in db.restores ::
              id in Insert(db, instanceId, database).restores
              && Insert(db, instanceId, database).restores[id] == db.restores[id]
  {
  }

  ghost predicate RestoresEvolve(a: Db, b: Db) {
    forall id | id in a.restores :: id in b.restores && Evolves(a.restores[id], b.restores[id])
  }

  lemma StepOk(s: State, e: Event)
    requires Inv(s)
    ensures Inv(Apply(s, e)) && RestoresEvolve(s.db, Apply(s, e).db)
  {
    match e
    case PatchWrites(t) => if t in s.held && s.held[t].Patching? { CommitOk(s.db, s.held[t].req); }
    case Creates(i, database, _) => InsertOk(s.db, i, database);
    case CreateWrites(t) =>
      if t in s.held && s.held[t].Creating? { InsertOk(s.db, s.held[t].instanceId, s.held[t].database); }
    case AlertByAdmin(id, action) => Alerts.AdminEffect(s.db.alerts, id, action);
    case _ =>
  }

  /** In every reachable state at most one restore of an instance and database is active,
      and an ACTIVE RESTORE_FAILED alert belongs to a FAILED restore. */
  lemma {:induction false} EveryReachableState(events: seq<Event>)
    ensures Inv(After(events))
  {
    if events != [] {
      EveryReachableState(events[..|events| - 1]);
      StepOk(After(events[..|events| - 1]), events[|events| - 1]);
    }
  }

  lemma LastStepEvolves(events: seq<Event>)
    requires events != []
    ensures RestoresEvolve(After(events[..|events| - 1]).db, After(events).db)
  {
    EveryReachableState(events[..|events| - 1]);
    StepOk(After(events[..|events| - 1]), events[|events| - 1]);
  }

  /** A finished restore never changes again. */
  lemma {:induction false} TerminalIsFinal(events: seq<Event>, n: nat, id: nat)
    requires n <= |events| && id in After(events[..n]).db.restores
    ensures id in After(events).db.restores
    ensures Terminal(After(events[..n]).db.restores[id].status) ==>
              After(events).db.restores[id] == After(events[..n]).db.restores[id]
    decreases |events|
  {
    if n == |events| {
      assert events[..n] == events;
    } else {
      var m := |events| - 1;
      assert events[..m][..n] == events[..n];
      TerminalIsFinal(events[..m], n, id);
      LastStepEvolves(events);
    }
  }

  ghost predicate StatusAt(events: seq<Event>, n: nat, id: nat, status: Status) {
    n <= |events| && id in After(events[..n]).db.restores && After(events[..n]).db.restores[id].status == status
  }

  /** CANCELLED is entered only from PENDING; no restore is created in it. */
  lemma CancelledOnlyFromPending(events: seq<Event>, k: nat, id: nat)
    requires k < |events| && StatusAt(events, k + 1, id, CANCELLED) && !StatusAt(events, k, id, CANCELLED)
    ensures StatusAt(events, k, id, PENDING)
  {
    assert events[..k + 1][..k] == events[..k];
    LastStepEvolves(events[..k + 1]);
  }

  /** Event k is a PATCH of this restore that asks for PENDING. */
  ghost predicate AsksForPending(events: seq<Event>, k: nat, id: nat) {
    && k < |events| && events[k].PatchWrites? && events[k].ticket in After(events[..k]).held
    && var held := After(events[..k]).held[events[k].ticket];
    held.Patching? && held.req.id == id && held.req.patch.status == Set(PENDING)
  }

  lemma AfterRunning(events: seq<Event>, n: nat, id: nat)
    requires n < |events| && StatusAt(events, n, id, RUNNING)
    ensures StatusAt(events, n + 1, id, PENDING) || StatusAt(events, n + 1, id, RUNNING)
            || StatusAt(events, n + 1, id, DONE) || StatusAt(events, n + 1, id, FAILED)
    ensures StatusAt(events, n + 1, id, PENDING) ==> AsksForPending(events, n, id)
  {
    var s := After(events[..n]);
    assert events[..n + 1][..n] == events[..n];
    assert After(events[..n + 1]) == Apply(s, events[n]);
    assert Inv(s) by { EveryReachableState(events[..n]); }
    assert RestoresEvolve(s.db, Apply(s, events[n]).db) by { StepOk(s, events[n]); }
  }

  lemma FinishedBeforeCancelled(events: seq<Event>, n: nat, end: nat, id: nat)
    requires n <= end <= |events| && StatusAt(events, end, id, CANCELLED)
    ensures !StatusAt(events, n, id, DONE) && !StatusAt(events, n, id, FAILED)
  {
    assert events[..end][..n] == events[..n];
    if id in After(events[..n]).db.restores {
      TerminalIsFinal(events[..end], n, id);
    }
  }

  /** Event k is such a PATCH and moves the restore from RUNNING back to PENDING. */
  ghost predicate GoesBack(events: seq<Event>, k: nat, id: nat) {
    StatusAt(events, k, id, RUNNING) && StatusAt(events, k + 1, id, PENDING) && AsksForPending(events, k, id)
  }

  lemma RunningThenCancelled(events: seq<Event>, n: nat, end: nat, id: nat)
    requires n <= end <= |events| && StatusAt(events, n, id, RUNNING) && StatusAt(events, end, id, CANCELLED)
    ensures n < end && (StatusAt(events, n + 1, id, RUNNING) || GoesBack(events, n, id))
  {
    assert n < end;
    assert !StatusAt(events, n + 1, id, DONE) && !StatusAt(events, n + 1, id, FAILED) by {
      FinishedBeforeCancelled(events, n + 1, end, id);
    }
    AfterRunning(events, n, id);
  }

  /** A restore that was RUNNING and is CANCELLED later was moved back to PENDING in
      between, by a PATCH that asks for PENDING. */
  lemma {:induction false} CancelledAfterRunningWentBack(events: seq<Event>, n: nat, end: nat, id: nat) returns (k: nat)
    requires n <= end <= |events| && StatusAt(events, n, id, RUNNING) && StatusAt(events, end, id, CANCELLED)
    ensures n <= k < end && GoesBack(events, k, id)
    decreases end - n
  {
    RunningThenCancelled(events, n, end, id);
    if GoesBack(events, n, id) {
      return n;
    }
    k := CancelledAfterRunningWentBack(events, n + 1, end, id);
  }

  // ---------------------------------------------------------------- deleted instances

  ghost predicate NoneActiveOnDeleted(db: Db) {
    forall id | id in db.restores && db.restores[id].Active() ::
      db.restores[id].instanceId in db.deleted && !db.deleted[db.restores[id].instanceId]
  }

  /** Creations that have passed their checks name an instance that exists. */
  ghost predicate HeldCreationsKnown(s: State) {
    forall t | t in s.held && s.held[t].Creating? :: s.held[t].instanceId in s.db.deleted
  }

  /** The two writes that come too late: an INSERT on an instance deleted since its check,
      and a deletion of an instance that has got an active restore since its count. */
  ghost predicate TooLate(s: State, e: Event) {
    && (e.CreateWrites? || e.DeleteWrites?) && e.ticket in s.held
    && var held := s.held[e.ticket];
    || (e.CreateWrites? && held.Creating? && held.instanceId in s.db.deleted && s.db.deleted[held.instanceId])
    || (e.DeleteWrites? && held.Deleting? && InstanceBusy(s.db, held.instanceId))
  }

  lemma InsertKeepsIdle(db: Db, i: nat, database: string)
    requires OneActive(db) && NoneActiveOnDeleted(db) && i in db.deleted
    ensures NoneActiveOnDeleted(Insert(db, i, database)) <==> !db.deleted[i]
  {
    if HasActive(db, i, database) {
      var id :| id in db.restores && db.restores[id].instanceId == i && db.restores[id].Active();
      assert !db.deleted[i];
    } else {
      assert Insert(db, i, database).restores[db.nextId] == NewRestore(i, database);
    }
  }

  lemma DeletionKeepsIdle(db: Db, i: nat)
    requires NoneActiveOnDeleted(db)
    ensures NoneActiveOnDeleted(MarkDeleted(db, i)) <==> !InstanceBusy(db, i)
  {
  }

  lemma PatchKeepsIdle(db: Db, req: Request)
    requires OneActive(db) && AlertMeansFailed(db) && ReqOk(req) && NoneActiveOnDeleted(db)
    ensures NoneActiveOnDeleted(Commit(db, req).0)
  {
    CommitOk(db, req);
  }

  /** A step keeps deleted instances idle exactly when it is not one of those two. */
  lemma StepKeepsIdle(s: State, e: Event)
    requires Inv(s) && HeldCreationsKnown(s) && NoneActiveOnDeleted(s.db)
    ensures NoneActiveOnDeleted(Apply(s, e).db) <==> !TooLate(s, e)
    ensures HeldCreationsKnown(Apply(s, e))
  {
    match e
    case PatchWrites(t) => if t in s.held && s.held[t].Patching? { PatchKeepsIdle(s.db, s.held[t].req); }
    case Creates(i, database, confirmation) =>
      if MayCreate(s.db, i, database, confirmation) { InsertKeepsIdle(s.db, i, database); }
    case CreateWrites(t) =>
      if t in s.held && s.held[t].Creating? { InsertKeepsIdle(s.db, s.held[t].instanceId, s.held[t].database); }
    case Deletes(i) => DeletionKeepsIdle(s.db, i);
    case DeleteWrites(t) => if t in s.held && s.held[t].Deleting? { DeletionKeepsIdle(s.db, s.held[t].instanceId); }
    case _ =>
  }

  ghost predicate IdleThroughout(events: seq<Event>) {
    forall n: nat | n <= |events| :: NoneActiveOnDeleted(After(events[..n]).db)
  }

  ghost predicate NeverTooLate(events: seq<Event>) {
    forall n: nat | n < |events| :: !TooLate(After(events[..n]), events[n])
  }

  lemma {:induction false} HeldCreationsStayKnown(events: seq<Event>)
    ensures HeldCreationsKnown(After(events))
  {
    if events != [] {
      HeldCreationsStayKnown(events[..|events| - 1]);
    }
  }

  /** Over a whole history no restore is ever active on a deleted instance iff none of its
      writes came too late. */
  lemma {:induction false} IdleIffNeverTooLate(events: seq<Event>)
    ensures IdleThroughout(events) <==> NeverTooLate(events)
  {
    if events == [] {
      assert NoneActiveOnDeleted(After(events[..0]).db);
    } else {
      var m := |events| - 1;
      var prefix := events[..m];
      IdleIffNeverTooLate(prefix);
      IdleSplits(events);
      TooLateSplits(events);
      if NoneActiveOnDeleted(After(prefix).db) {
        EveryReachableState(prefix);
        HeldCreationsStayKnown(prefix);
        StepKeepsIdle(After(prefix), events[m]);
      }
    }
  }

  lemma IdleSplits(events: seq<Event>)
    requires events != []
    ensures
      var prefix := events[..|events| - 1];
      && (IdleThroughout(events) <==> IdleThroughout(prefix) && NoneActiveOnDeleted(After(events).db))
      && (IdleThroughout(prefix) ==> NoneActiveOnDeleted(After(prefix).db))
  {
    var m := |events| - 1;
    var prefix := events[..m];
    forall n: nat | n <= m
      ensures prefix[..n] == events[..n]
    {
    }
    assert events[..|events|] == events && prefix[..m] == prefix;
    if IdleThroughout(prefix) && NoneActiveOnDeleted(After(events).db) {
      forall n: nat | n <= |events|
        ensures NoneActiveOnDeleted(After(events[..n]).db)
      {
        assert n <= m ==> NoneActiveOnDeleted(After(prefix[..n]).db);
      }
    }
    if IdleThroughout(events) {
      forall n: nat | n <= m
        ensures NoneActiveOnDeleted(After(prefix[..n]).db)
      {
        assert NoneActiveOnDeleted(After(events[..n]).db);
      }
    }
  }

  lemma TooLateSplits(events: seq<Event>)
    requires events != []
    ensures
      var m := |events| - 1;
      NeverTooLate(events) <==> NeverTooLate(events[..m]) && !TooLate(After(events[..m]), events[m])
  {
    var m := |events| - 1;
    var prefix := events[..m];
    forall n: nat | n < m
      ensures TooLate(After(prefix[..n]), prefix[n]) <==> TooLate(After(events[..n]), events[n])
    {
      assert prefix[..n] == events[..n];
    }
    if NeverTooLate(events) {
      forall n: nat | n < m
        ensures !TooLate(After(prefix[..n]), prefix[n])
      {
        assert !TooLate(After(events[..n]), events[n]);
      }
    }
    if NeverTooLate(prefix) && !TooLate(After(prefix), events[m]) {
      forall n: nat | n < |events|
        ensures !TooLate(After(events[..n]), events[n])
      {
        assert n < m ==> !TooLate(After(prefix[..n]), prefix[n]);
      }
    }
  }

  ghost predicate AtomicHandlers(events: seq<Event>) {
    forall i :: 0 <= i < |events| ==> !events[i].CreateWrites? && !events[i].DeleteWrites?
  }

  /** In particular with creation and deletion atomic. */
  lemma DeletedInstancesAreIdle(events: seq<Event>)
    requires AtomicHandlers(events)
    ensures NoneActiveOnDeleted(After(events).db)
  {
    IdleIffNeverTooLate(events);
    assert events[..|events|] == events;
  }

  lemma Extend(events: seq<Event>, e: Event)
    ensures After(events + [e]) == Apply(After(events), e)
  {
    assert (events + [e])[..|events|] == events;
  }

  /** An instance, and a creation that has passed its checks. */
  const CHECKED: seq<Event> := [InstanceCreated(1)] + [CreateChecks(0, 1, "db", "db")]

  lemma Checked()
    ensures After(CHECKED) == State(Db(map[1 := false], map[], 0, []), map[0 := Creating(1, "db")])
  {
    var es: seq<Event> := [InstanceCreated(1)];
    assert es[..0] == [];
    assert After(es) == State(Db(map[1 := false], map[], 0, []), map[]);
    Extend(es, CreateChecks(0, 1, "db", "db"));
  }

  /** Split at their await points they are not: the deletion can count the active restores
      before an already checked creation inserts one. */
  lemma SplitHandlersBreakIt()
    ensures exists events: seq<Event> ::
              (forall i :: 0 <= i < |events| ==> !events[i].DeleteWrites?) && !NoneActiveOnDeleted(After(events).db)
  {
    Checked();
    assert !InstanceBusy(After(CHECKED).db, 1);
    Extend(CHECKED, Deletes(1));
    var deleted := CHECKED + [Deletes(1)];
    assert After(deleted).db == MarkDeleted(After(CHECKED).db, 1) && After(deleted).held == map[0 := Creating(1, "db")];
    assert !HasActive(After(deleted).db, 1, "db");
    Extend(deleted, CreateWrites(0));
    assert After(deleted + [CreateWrites(0)]).db == Insert(After(deleted).db, 1, "db");
  }

  /** An instance, and a deletion that has counted no active restore of it. */
  const COUNTED: seq<Event> := [InstanceCreated(1)] + [DeleteChecks(0, 1)]

  lemma Counted()
    ensures After(COUNTED) == State(Db(map[1 := false], map[], 0, []), map[0 := Deleting(1)])
  {
    var es: seq<Event> := [InstanceCreated(1)];
    assert es[..0] == [];
    assert After(es) == State(Db(map[1 := false], map[], 0, []), map[]);
    assert !InstanceBusy(After(es).db, 1);
    Extend(es, DeleteChecks(0, 1));
  }

  lemma LateDeletion(s: State)
    requires s == State(Db(map[1 := false], map[], 0, []), map[0 := Deleting(1)])
    ensures !NoneActiveOnDeleted(Apply(Apply(s, Creates(1, "db", "db")), DeleteWrites(0)).db)
  {
    assert !HasActive(s.db, 1, "db");
    var created := Apply(s, Creates(1, "db", "db"));
    assert created.db.restores == map[0 := NewRestore(1, "db")] && created.held == s.held;
    assert Apply(created, DeleteWrites(0)).db == MarkDeleted(created.db, 1);
  }

  /** The other late write: after the count a creation that nothing interrupts adds a
      restore, and then the deletion commits. */
  lemma SplitDeletionBreaksIt()
    ensures exists events: seq<Event> ::
              (forall i :: 0 <= i < |events| ==> !events[i].CreateWrites?) && !NoneActiveOnDeleted(After(events).db)
  {
    Counted();
    Extend(COUNTED, Creates(1, "db", "db"));
    var created := COUNTED + [Creates(1, "db", "db")];
    Extend(created, DeleteWrites(0));
    LateDeletion(After(COUNTED));
    assert !NoneActiveOnDeleted(After(created + [DeleteWrites(0)]).db);
  }

  // ---------------------------------------------------------------- a PATCH without fields

  const NOTHING := Patch(Unset, Unset, Unset, Unset, Unset)

  /** A PATCH without fields has read a new restore when another one marks it DONE. */
  const DONE_MEANWHILE: seq<Event> :=
    [InstanceCreated(1)] + [Creates(1, "db", "db")] + [PatchReads(0, 0, NOTHING, 0)]
    + [PatchReads(1, 0, NOTHING.(status := Set(DONE)), 0)] + [PatchWrites(1)]

  lemma DoneMeanwhile(s: State)
    requires 0 in s.db.restores && s.db.restores[0] == NewRestore(1, "db") && s.held == map[]
    ensures
      var read := Apply(Apply(s, PatchReads(0, 0, NOTHING, 0)), PatchReads(1, 0, NOTHING.(status := Set(DONE)), 0));
      var t := Apply(read, PatchWrites(1));
      && 0 in t.db.restores && t.db.restores[0].status == DONE
      && 0 in t.held && t.held[0] == Patching(Request(0, PENDING, NOTHING, 0))
  {
  }

  /** It is accepted all the same, where an uninterrupted PATCH would answer 409. */
  lemma EmptyPatchAcceptedOnDoneRestore()
    ensures
      var s := After(DONE_MEANWHILE);
      && 0 in s.db.restores && Terminal(s.db.restores[0].status) && 0 in s.held && s.held[0].Patching?
      && Commit(s.db, s.held[0].req).1 == Accepted && Atomic(s.db, 0, NOTHING, 0).1 == Rejected(409)
  {
    var es: seq<Event> := [InstanceCreated(1)];
    assert es[..0] == [];
    assert After(es) == State(Db(map[1 := false], map[], 0, []), map[]);
    assert !HasActive(After(es).db, 1, "db");
    var created := es + [Creates(1, "db", "db")];
    Extend(es, Creates(1, "db", "db"));
    DoneMeanwhile(After(created));
    var read := created + [PatchReads(0, 0, NOTHING, 0)];
    Extend(created, PatchReads(0, 0, NOTHING, 0));
    var both := read + [PatchReads(1, 0, NOTHING.(status := Set(DONE)), 0)];
    Extend(read, PatchReads(1, 0, NOTHING.(status := Set(DONE)), 0));
    Extend(both, PatchWrites(1));
  }

  // ---------------------------------------------------------------- on the stored rows

  class Backend {
    var deleted: map<nat, bool>
    var restores: map<nat, Restore>
    var nextId: nat
    var enabledJobs: map<nat, nat>           // enabled backup jobs and the instance they name
    var activeVerifications: map<nat, nat>   // PENDING or RUNNING verification runs, likewise
    const alerts: AlertTable.Table

    constructor ()
      ensures fresh(alerts) && View() == INITIAL.db && enabledJobs == map[] && activeVerifications == map[]
    {
      deleted, restores, nextId := map[], map[], 0;
      enabledJobs, activeVerifications := map[], map[];
      alerts := new AlertTable.Table();
    }

    function View(): Db
      reads this, alerts
    {
      Db(deleted, restores, nextId, alerts.rows)
    }

    method CreateRestoreOperation(instanceId: nat, database: string, confirmation: string, operatorRole: bool,
                                  missingMode: bool, recordExists: bool)
      returns (outcome: Outcome)
      modifies this`restores, this`nextId
      ensures outcome.Accepted? <==>
                MayCreate(old(View()), instanceId, database, confirmation) && (operatorRole ==> missingMode)
                && recordExists && !old(HasActive(View(), instanceId, database))
      ensures View() == if outcome.Accepted? then Insert(old(View()), instanceId, database) else old(View())
      ensures outcome.Accepted? ==>
                View() == old(View()).(restores := old(restores)[old(nextId) :=
                                         Restore(instanceId, database, PENDING, None, None, None, None)],
                                       nextId := old(nextId) + 1)
      ensures outcome == Rejected(422) <==> confirmation != database
      ensures outcome == Rejected(403) <==> confirmation == database && operatorRole && !missingMode
      ensures outcome == Rejected(404) <==>
                confirmation == database && (operatorRole ==> missingMode)
                && (!recordExists || instanceId !in old(deleted))
      ensures outcome == Rejected(409) <==>
                && confirmation == database && (operatorRole ==> missingMode) && recordExists
                && instanceId in old(deleted)
                && (old(deleted)[instanceId]
                    || exists id :: && id in old(restores) && old(restores)[id].instanceId == instanceId
                                    && old(restores)[id].database == database
                                    && (old(restores)[id].status == PENDING || old(restores)[id].status == RUNNING))
      ensures outcome.Rejected? ==> outcome.code in {422, 403, 404, 409}
    {
      if confirmation != database {
        return Rejected(422);
      }
      if operatorRole && !missingMode {
        return Rejected(403);
      }
      if !recordExists || instanceId !in deleted {
        return Rejected(404);
      }
      if deleted[instanceId] {
        return Rejected(409);
      }
      if exists id :: id in restores && restores[id].instanceId == instanceId && restores[id].database == database
                      && restores[id].Active() {
        return Rejected(409);
      }
      restores := restores[nextId := NewRestore(instanceId, database)];
      nextId := nextId + 1;
      return Accepted;
    }

    /** PATCH after its read. */
    method CommitUpdate(req: Request) returns (outcome: Outcome)
      requires Alerts.Valid(alerts.rows)
      modifies this`restores, alerts
      ensures (View(), outcome) == Commit(old(View()), req) && Alerts.Valid(alerts.rows)
      ensures PatchDone(old(View()), req.id, req.patch, req.expected, req.now, View(), outcome)
    {
      PatchMeans(View(), req);
      var p := req.patch;
      var completedAt := p.completedAt;
      if p.status.Set? && (p.status.value == DONE || p.status.value == FAILED) && p.completedAt.Unset? {
        completedAt := Set(req.now);
      }
      if !p.Empty() {
        if p.status.Null? {
          return Rejected(409);
        }
        if req.id !in restores || restores[req.id].status != req.expected {
          return Rejected(409);
        }
        var r := restores[req.id];
        restores := restores[req.id := r.(
          status := if p.status.Set? then p.status.value else r.status,
          startedAt := p.startedAt.Over(r.startedAt),
          completedAt := completedAt.Over(r.completedAt),
          log := p.log.Over(r.log),
          errorMessage := p.errorMessage.Over(r.errorMessage))];
      }
      if p.status.Set? && p.status.value == FAILED {
        var _ := alerts.RaiseAlertIfAbsent(FailedKey(req.id), Alerts.Critical);
      }
      return Accepted;
    }

    /** PATCH from its first line, when nothing interrupts it. */
    method UpdateRestoreOperation(id: nat, patch: Patch, now: int) returns (outcome: Outcome)
      requires Alerts.Valid(alerts.rows)
      modifies this`restores, alerts
      ensures (View(), outcome) == Atomic(old(View()), id, patch, now) && Alerts.Valid(alerts.rows)
      ensures PatchAnswer(old(View()), id, patch, now, View(), outcome)
    {
      PatchAnswers(View(), id, patch, now);
      if id !in restores {
        return Rejected(404);
      }
      var expectedStatus := restores[id].status;
      if expectedStatus != PENDING && expectedStatus != RUNNING {
        return Rejected(409);
      }
      if patch.status.Set? && !IsValidTransition(expectedStatus, patch.status.value) {
        return Rejected(409);
      }
      outcome := CommitUpdate(Request(id, expectedStatus, patch, now));
    }

    ghost predicate Referenced(instanceId: nat)
      reads this
    {
      || (exists j :: j in enabledJobs && enabledJobs[j] == instanceId)
      || (exists v :: v in activeVerifications && activeVerifications[v] == instanceId)
    }

    /** DELETE of an instance: deleting twice is no error; an enabled job, an active restore
        or an active verification run of the instance each block it. */
    method DeleteSqlInstance(instanceId: nat) returns (outcome: Outcome)
      modifies this`deleted
      ensures outcome.Accepted? <==>
                instanceId in old(deleted)
                && (old(deleted)[instanceId] || (!Referenced(instanceId) && old(MayDelete(View(), instanceId))))
      ensures View() == if !Referenced(instanceId) && old(MayDelete(View(), instanceId))
                        then MarkDeleted(old(View()), instanceId) else old(View())
      ensures deleted == if outcome.Accepted? then old(deleted)[instanceId := true] else old(deleted)
      ensures outcome.Accepted? <==>
                && instanceId in old(deleted)
                && (old(deleted)[instanceId]
                    || (&& (forall j | j in enabledJobs :: enabledJobs[j] != instanceId)
                        && (forall v | v in activeVerifications :: activeVerifications[v] != instanceId)
                        && (forall id | id in restores && restores[id].instanceId == instanceId ::
                              restores[id].status != PENDING && restores[id].status != RUNNING)))
      ensures outcome == Rejected(404) <==> instanceId !in old(deleted)
      ensures outcome.Rejected? ==> outcome.code == 404 || outcome.code == 409
    {
      if instanceId !in deleted {
        return Rejected(404);
      }
      if deleted[instanceId] {
        return Accepted;
      }
      if exists j :: j in enabledJobs && enabledJobs[j] == instanceId {
        return Rejected(409);
      }
      if exists id :: id in restores && restores[id].instanceId == instanceId && restores[id].Active() {
        return Rejected(409);
      }
      if exists v :: v in activeVerifications && activeVerifications[v] == instanceId {
        return Rejected(409);
      }
      deleted := deleted[instanceId := true];
      return Accepted;
    }
  }
}
