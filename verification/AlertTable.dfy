/** The helper of app/routers/_alerts.py and the two admin handlers of
    app/routers/alerts.py as operations on one session's view of the alerts table. */
module AlertTable {
  import opened Wrappers
  import opened Alerts

  /** scalar_one_or_none(): more than one row is an exception. */
  datatype Lookup = NoRow | OneRow(id: nat) | ManyRows

  /** A write of the session's open transaction. */
  datatype Write = AlertInsert(key: Key) | AlertUpdate(id: nat) | OtherRow(table: string, id: nat)

  lemma NoCollisionIffIndexOk(rows: seq<Alert>, alert: Alert)
    requires IndexOk(rows)
    ensures IndexOk(rows + [alert]) <==> !exists k :: 0 <= k < |rows| && Collide(rows[k], alert)
  {
    var more := rows + [alert];
    if k :| 0 <= k < |rows| && Collide(rows[k], alert) {
      assert Collide(more[k], more[|rows|]);
    } else {
      forall i, j | 0 <= i < j < |more|
        ensures !Collide(more[i], more[j])
      {
        if j < |rows| {
          assert !Collide(rows[i], rows[j]);
        }
      }
    }
  }

  /** A row as the helper inserts it: about this entity and no other, and open. */
  ghost predicate IsFresh(alert: Alert, key: Key, severity: Severity) {
    && alert.alertType == key.alertType && alert.severity == severity && alert.kind == key.kind
    && (forall k: EntityKind :: alert.Column(k) == if k == key.kind then Some(key.id) else None)
    && alert.status == Active && alert.acknowledgedBy == None && alert.resolvedNote == None
  }

  class Table {
    var rows: seq<Alert>
    /** The open transaction's writes, in order. */
    var pending: seq<Write>

    constructor ()
      ensures rows == [] && pending == []
    {
      rows, pending := [], [];
    }

    /** The enclosing handler writes a server, a disk, a run ... */
    method WriteRow(table: string, id: nat)
      modifies this`pending
      ensures pending == old(pending) + [OtherRow(table, id)]
    {
      pending := pending + [OtherRow(table, id)];
    }

    method GetActiveAlert(key: Key) returns (found: Lookup)
      ensures found.NoRow? <==> !HasActive(rows, key)
      ensures found.OneRow? ==> found.id < |rows| && rows[found.id].Matches(key)
      ensures found.OneRow? ==> forall i :: 0 <= i < |rows| && i != found.id ==> !rows[i].Matches(key)
      ensures Valid(rows) ==> !found.ManyRows?
    {
      found := NoRow;
      for i := 0 to |rows|
        invariant found.NoRow? <==> forall k :: 0 <= k < i ==> !rows[k].Matches(key)
        invariant found.OneRow? ==> found.id < i && rows[found.id].Matches(key)
        invariant found.OneRow? ==> forall k :: 0 <= k < i && k != found.id ==> !rows[k].Matches(key)
        invariant found.ManyRows? ==> !Valid(rows)
      {
        if rows[i].Matches(key) {
          if found.NoRow? {
            found := OneRow(i);
          } else {
            if Valid(rows) && found.OneRow? {
              MatchIsUnique(rows, key, found.id, i);
            }
            found := ManyRows;
          }
        }
      }
    }

    /** ROLLBACK TO the savepoint: the writes made after the mark are undone, those before it
        stay. */
    method RollbackTo(mark: nat, view: seq<Alert>)
      requires mark <= |pending|
      modifies this
      ensures rows == view && pending == old(pending)[..mark]
    {
      rows := view;
      pending := pending[..mark];
    }

    /** Whether the partial unique index refuses the last row. */
    method LastCollides(alert: Alert) returns (refused: bool)
      requires rows != [] && alert == rows[|rows| - 1]
      ensures refused <==> exists k :: 0 <= k < |rows| - 1 && Collide(rows[k], alert)
    {
      refused := false;
      for i := 0 to |rows| - 1
        invariant refused <==> exists k :: 0 <= k < i && Collide(rows[k], alert)
      {
        if Collide(rows[i], alert) {
          refused := true;
        }
      }
    }

    /** The INSERT inside session.begin_nested(), whatever was read before it: a refused row
        is undone back to the savepoint, and every write the enclosing transaction had
        pending survives. */
    method InsertInSavepoint(key: Key, severity: Severity) returns (inserted: Option<nat>)
      requires Valid(rows)
      modifies this
      ensures inserted.None? <==> old(HasActive(rows, key))
      ensures inserted.None? ==> rows == old(rows) && pending == old(pending)
      ensures inserted.Some? ==> inserted.value == |old(rows)| && rows == old(rows) + [NewAlert(key, severity)]
                                 && pending == old(pending) + [AlertInsert(key)]
                                 && IsFresh(rows[inserted.value], key, severity)
      ensures Valid(rows)
    {
      InsertRefusedIffActive(rows, key, severity);
      var mark, view := |pending|, rows;
      var alert := Alert(
        key.alertType, severity, key.kind,
        if key.kind == Server then Some(key.id) else None,
        if key.kind == Disk then Some(key.id) else None,
        if key.kind == BackupJob then Some(key.id) else None,
        if key.kind == JobRun then Some(key.id) else None,
        if key.kind == RestoreOperation then Some(key.id) else None,
        if key.kind == BackupRecord then Some(key.id) else None,
        Active, None, None);
      assert alert == NewAlert(key, severity);
      rows := rows + [alert];
      pending := pending + [AlertInsert(key)];
      var refused := LastCollides(alert);
      NoCollisionIffIndexOk(view, alert);
      if refused {
        RollbackTo(mark, view);
        return None;
      }
      NewAlertIsHelperBuilt(key, severity);
      return Some(|view|);
    }

    /** The helper with another session's commits between its lookup and its insert: `others`
        is the table they leave. It answers None exactly when the race is lost, and then has
        changed nothing. */
    method RaiseAmidOthers(key: Key, severity: Severity, others: seq<Alert>) returns (alert: Option<nat>)
      requires Valid(rows) && Valid(others)
      modifies this
      ensures old(HasActive(rows, key)) ==>
                rows == old(rows) && pending == old(pending)
                && alert.Some? && alert.value < |rows| && rows[alert.value].Matches(key)
      ensures !old(HasActive(rows, key)) ==>
                rows == Raise(others, key, severity) && (alert.None? <==> HasActive(others, key))
                && pending == old(pending) + (if alert.None? then [] else [AlertInsert(key)])
                && (alert.Some? ==> alert.value == |others| && rows[alert.value].Matches(key))
      ensures Valid(rows)
    {
      var existing := GetActiveAlert(key);
      if existing.OneRow? {
        return Some(existing.id);
      }
      rows := others;
      alert := InsertInSavepoint(key, severity);
      NewAlertIsHelperBuilt(key, severity);
    }

    /** The helper that nothing interrupts: an existing ACTIVE alert is returned unchanged,
        otherwise one is inserted. */
    method RaiseAlertIfAbsent(key: Key, severity: Severity) returns (alert: Option<nat>)
      requires Valid(rows)
      modifies this
      ensures rows == Raise(old(rows), key, severity) && Valid(rows)
      ensures alert.Some? && alert.value < |rows| && rows[alert.value].Matches(key)
      ensures old(HasActive(rows, key)) <==> alert.value < |old(rows)|
      ensures old(HasActive(rows, key)) ==> rows == old(rows)
      ensures !old(HasActive(rows, key)) ==>
                alert.value == |old(rows)| && rows == old(rows) + [rows[alert.value]]
                && IsFresh(rows[alert.value], key, severity)
      ensures pending == old(pending) + (if old(HasActive(rows, key)) then [] else [AlertInsert(key)])
    {
      alert := RaiseAmidOthers(key, severity, rows);
    }

    method ResolveActiveAlert(key: Key, note: Option<string>) returns (alert: Option<nat>)
      requires Valid(rows)
      modifies this
      ensures rows == Resolve(old(rows), key, note) && Valid(rows)
      ensures pending == old(pending) + (if alert.Some? then [AlertUpdate(alert.value)] else [])
      ensures alert.Some? <==> old(HasActive(rows, key))
      ensures alert.Some? ==> alert.value < |old(rows)| && old(rows)[alert.value].Matches(key)
      ensures rows ==
                if alert.None? then old(rows)
                else old(rows)[alert.value := old(rows)[alert.value].(status := Resolved, resolvedNote := note)]
    {
      ResolveEffect(rows, key, note);
      var existing := GetActiveAlert(key);
      if existing.OneRow? {
        rows := rows[existing.id := rows[existing.id].(status := Resolved, resolvedNote := note)];
        pending := pending + [AlertUpdate(existing.id)];
        assert rows == Resolve(old(rows), key, note);
        return Some(existing.id);
      }
      assert rows == Resolve(old(rows), key, note);
      return None;
    }

    /** Acknowledging twice is not a conflict; only a RESOLVED alert is refused. */
    method AcknowledgeAlert(id: nat, username: string) returns (ok: bool)
      modifies this`rows
      ensures rows == Admin(old(rows), id, Acknowledge(username))
      ensures ok <==> id < |old(rows)| && old(rows)[id].status != Resolved
      ensures rows ==
                if ok then old(rows)[id := old(rows)[id].(status := Acknowledged, acknowledgedBy := Some(username))]
                else old(rows)
    {
      if id >= |rows| {
        return false;
      }
      var alert := rows[id];
      if alert.status == Resolved {
        return false;
      }
      rows := rows[id := alert.(status := Acknowledged, acknowledgedBy := Some(username))];
      return true;
    }

    method ResolveAlert(id: nat, note: Option<string>) returns (ok: bool)
      modifies this`rows
      ensures rows == Admin(old(rows), id, ResolveIt(note))
      ensures ok <==> id < |old(rows)| && old(rows)[id].status != Resolved
      ensures rows ==
                if ok then old(rows)[id := old(rows)[id].(status := Resolved, resolvedNote := note)] else old(rows)
    {
      if id >= |rows| {
        return false;
      }
      var alert := rows[id];
      if alert.status == Resolved {
        return false;
      }
      rows := rows[id := alert.(status := Resolved, resolvedNote := note)];
      return true;
    }
  }
}
