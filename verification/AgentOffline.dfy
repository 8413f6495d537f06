/** Server status: heartbeats (app/routers/agents.py) against the offline sweep
    (check_agent_offline of app/workers/alert_worker.py), which reads a server, decides
    that it is stale, and writes OFFLINE with a guarded UPDATE. */
module AgentOffline {
  import opened Wrappers
  import Alerts
  import AlertTable

  datatype ServerStatus = ACTIVE | DISABLED | UNREACHABLE | OFFLINE

  datatype Server = Server(status: ServerStatus, lastSeenAt: Option<int>, deleted: bool)

  datatype Db = Db(servers: map<nat, Server>, alerts: seq<Alerts.Alert>)

  function OfflineKey(id: nat): Alerts.Key { Alerts.Key(Alerts.Server, id, Alerts.AgentOffline) }

  function UnreachableKey(id: nat): Alerts.Key { Alerts.Key(Alerts.Server, id, Alerts.ServerUnreachable) }

  // ---------------------------------------------------------------- the two writers

  /** What a heartbeat does to the server row. */
  function Beat(server: Server, at: int, reachable: bool): Server {
    Server(if server.status == DISABLED then DISABLED else if reachable then ACTIVE else UNREACHABLE,
           Some(at), server.deleted)
  }

  /** ... and to the server's alerts. */
  ghost function BeatAlerts(alerts: seq<Alerts.Alert>, id: nat, reachable: bool): seq<Alerts.Alert> {
    var cleared := Alerts.Resolve(alerts, OfflineKey(id), None);
    if reachable then Alerts.Resolve(cleared, UnreachableKey(id), None)
    else Alerts.Raise(cleared, UnreachableKey(id), Alerts.Critical)
  }

  /** A report that SQL Server does not answer makes the server UNREACHABLE, any other ACTIVE;
      only a DISABLED server stays as it is. */
  lemma BeatMeans(server: Server, at: int, reachable: bool)
    ensures
      var after := Beat(server, at, reachable);
      && after.lastSeenAt == Some(at) && after.deleted == server.deleted
      && (server.status == DISABLED ==> after.status == DISABLED)
      && (server.status != DISABLED ==> (after.status == ACTIVE <==> reachable))
      && (server.status != DISABLED ==> (after.status == UNREACHABLE <==> !reachable))
  {
  }

  /** It also ends AGENT_OFFLINE, and SERVER_UNREACHABLE is critical. */
  ghost predicate BeatAlerted(rows: seq<Alerts.Alert>, id: nat, reachable: bool, after: seq<Alerts.Alert>) {
    exists cleared ::
      && Alerts.OnlyAlert(rows, Alerts.Key(Alerts.Server, id, Alerts.AgentOffline), false, Alerts.Critical, cleared)
      && Alerts.OnlyAlert(cleared, Alerts.Key(Alerts.Server, id, Alerts.ServerUnreachable), !reachable, Alerts.Critical,
                          after)
  }

  lemma BeatAlertsMean(rows: seq<Alerts.Alert>, id: nat, reachable: bool)
    requires Alerts.Valid(rows)
    ensures BeatAlerted(rows, id, reachable, BeatAlerts(rows, id, reachable))
  {
    var offline := Alerts.Key(Alerts.Server, id, Alerts.AgentOffline);
    var unreachable := Alerts.Key(Alerts.Server, id, Alerts.ServerUnreachable);
    var cleared := Alerts.Resolve(rows, offline, None);
    Alerts.ResolveMeans(rows, offline, None, Alerts.Critical);
    Alerts.ResolveMeans(cleared, unreachable, None, Alerts.Critical);
    Alerts.RaiseMeans(cleared, unreachable, Alerts.Critical);
  }

  predicate Stale(server: Server, now: int, threshold: nat) {
    !server.deleted && server.status != DISABLED && server.status != OFFLINE &&
    server.lastSeenAt.Some? && now - server.lastSeenAt.value > threshold
  }

  /** The WHERE clause of the UPDATE. */
  predicate CasMatches(db: Db, id: nat, snapshot: int) {
    id in db.servers && db.servers[id].lastSeenAt == Some(snapshot) && db.servers[id].status != DISABLED
  }

  ghost function MarkOffline(db: Db, id: nat, snapshot: int): Db {
    if !CasMatches(db, id, snapshot) then db
    else Db(db.servers[id := db.servers[id].(status := OFFLINE)],
            Alerts.Raise(db.alerts, OfflineKey(id), Alerts.Critical))
  }

  /** The guarded UPDATE: only a server that is not DISABLED and was last seen at the instant
      read goes OFFLINE, with AGENT_OFFLINE; nothing else of it changes. */
  lemma MarkOfflineMeans(db: Db, id: nat, snapshot: int)
    requires Alerts.Valid(db.alerts)
    ensures
      var after := MarkOffline(db, id, snapshot);
      if id in db.servers && db.servers[id].status != DISABLED && db.servers[id].lastSeenAt == Some(snapshot) then
        && after.servers == db.servers[id := Server(OFFLINE, Some(snapshot), db.servers[id].deleted)]
        && Alerts.OnlyAlert(db.alerts, Alerts.Key(Alerts.Server, id, Alerts.AgentOffline), true, Alerts.Critical,
                            after.alerts)
      else after == db
  {
    Alerts.RaiseMeans(db.alerts, Alerts.Key(Alerts.Server, id, Alerts.AgentOffline), Alerts.Critical);
  }

  lemma BeatAlertsEffect(alerts: seq<Alerts.Alert>, id: nat, reachable: bool)
    requires Alerts.Valid(alerts)
    ensures Alerts.Valid(BeatAlerts(alerts, id, reachable))
    ensures forall key :: Alerts.HasActive(BeatAlerts(alerts, id, reachable), key) <==>
              if key == OfflineKey(id) then false
              else if key == UnreachableKey(id) then !reachable
              else Alerts.HasActive(alerts, key)
  {
    var cleared := Alerts.Resolve(alerts, OfflineKey(id), None);
    Alerts.ResolveEffect(alerts, OfflineKey(id), None);
    Alerts.ResolveEffect(cleared, UnreachableKey(id), None);
    Alerts.RaiseEffect(cleared, UnreachableKey(id), Alerts.Critical);
  }

  // ---------------------------------------------------------------- the interleaving

  datatype Read = Read(server: nat, snapshot: int)

  datatype State = State(db: Db, held: map<nat, Read>)

  datatype Event =
    | Created(id: nat)
    | Heartbeat(id: nat, at: int, reachable: bool)
    | SweepReads(ticket: nat, id: nat, now: int, threshold: nat)
    | SweepWrites(ticket: nat)
    | StatusByAdmin(id: nat, status: ServerStatus)
    | Deleted(id: nat)
    | AlertByAdmin(alertId: nat, action: Alerts.AdminAction)

  ghost function Apply(s: State, e: Event): State {
    match e
    case Created(id) =>
      if id in s.db.servers then s else s.(db := s.db.(servers := s.db.servers[id := Server(ACTIVE, None, false)]))
    case Heartbeat(id, at, reachable) =>
      if id !in s.db.servers then s
      else s.(db := Db(s.db.servers[id := Beat(s.db.servers[id], at, reachable)],
                       BeatAlerts(s.db.alerts, id, reachable)))
    case SweepReads(ticket, id, now, threshold) =>
      if ticket in s.held || id !in s.db.servers || !Stale(s.db.servers[id], now, threshold) then s
      else s.(held := s.held[ticket := Read(id, s.db.servers[id].lastSeenAt.value)])
    case SweepWrites(ticket) =>
      if ticket !in s.held then s
      else State(MarkOffline(s.db, s.held[ticket].server, s.held[ticket].snapshot), s.held - {ticket})
    case StatusByAdmin(id, status) =>
      if id !in s.db.servers || s.db.servers[id].deleted then s
      else s.(db := s.db.(servers := s.db.servers[id := s.db.servers[id].(status := status)]))
    case Deleted(id) =>
      if id !in s.db.servers then s
      else s.(db := s.db.(servers := s.db.servers[id := s.db.servers[id].(deleted := true)]))
    case AlertByAdmin(id, action) => s.(db := s.db.(alerts := Alerts.Admin(s.db.alerts, id, action)))
  }

  ghost function After(events: seq<Event>): State {
    if events == [] then State(Db(map[], []), map[])
    else Apply(After(events[..|events| - 1]), events[|events| - 1])
  }

  /** A new server is ACTIVE and has not been seen; an admin's edit writes the status, a deletion
      only marks the row. */
  lemma ServerEventsMean(s: State, id: nat, status: ServerStatus)
    ensures id !in s.db.servers ==>
              Apply(s, Created(id)) == s.(db := s.db.(servers := s.db.servers[id := Server(ACTIVE, None, false)]))
    ensures id in s.db.servers && !s.db.servers[id].deleted ==>
              var was := s.db.servers[id];
              Apply(s, StatusByAdmin(id, status)) ==
              s.(db := s.db.(servers := s.db.servers[id := Server(status, was.lastSeenAt, false)]))
    ensures id in s.db.servers ==>
              var was := s.db.servers[id];
              Apply(s, Deleted(id)) ==
              s.(db := s.db.(servers := s.db.servers[id := Server(was.status, was.lastSeenAt, true)]))
  {
  }

  lemma StepKeepsAlertsValid(s: State, e: Event)
    requires Alerts.Valid(s.db.alerts)
    ensures Alerts.Valid(Apply(s, e).db.alerts)
  {
    match e
    case Heartbeat(id, _, reachable) => BeatAlertsEffect(s.db.alerts, id, reachable);
    case SweepWrites(ticket) =>
      if ticket in s.held {
        Alerts.RaiseEffect(s.db.alerts, OfflineKey(s.held[ticket].server), Alerts.Critical);
      }
    case AlertByAdmin(id, action) => Alerts.AdminEffect(s.db.alerts, id, action);
    case _ =>
  }

  lemma {:induction false} AlertsStayValid(events: seq<Event>)
    ensures Alerts.Valid(After(events).db.alerts)
  {
    if events != [] {
      AlertsStayValid(events[..|events| - 1]);
      StepKeepsAlertsValid(After(events[..|events| - 1]), events[|events| - 1]);
    }
  }

  /** Neither a heartbeat nor the sweep ever changes a DISABLED server's status. */
  lemma OnlyAdminsEnable(s: State, e: Event, id: nat)
    requires id in s.db.servers && s.db.servers[id].status == DISABLED && !(e.StatusByAdmin? && e.id == id)
    ensures id in Apply(s, e).db.servers && Apply(s, e).db.servers[id].status == DISABLED
  {
  }

  // ---------------------------------------------------------------- no heartbeat was missed

  /** Clocks move forward: a heartbeat is later than the stored last_seen_at. */
  ghost predicate ClocksAdvance(events: seq<Event>) {
    forall k: nat | k < |events| && events[k].Heartbeat? ::
      var servers := After(events[..k]).db.servers;
      events[k].id in servers && servers[events[k].id].lastSeenAt.Some? ==>
        events[k].at > servers[events[k].id].lastSeenAt.value
  }

  lemma ClocksAdvanceBefore(events: seq<Event>, n: nat)
    requires ClocksAdvance(events) && n <= |events|
    ensures ClocksAdvance(events[..n])
  {
    forall k: nat | k < n && events[..n][k].Heartbeat?
      ensures events[..n][..k] == events[..k]
    {
    }
  }

  /** The value of last_seen_at that a server has, once it has one. */
  ghost predicate SeenAt(s: State, id: nat, at: int) {
    id in s.db.servers && s.db.servers[id].lastSeenAt == Some(at)
  }

  ghost predicate BeatsIn(events: seq<Event>, n: nat, id: nat) {
    exists k: nat :: n <= k < |events| && events[k].Heartbeat? && events[k].id == id
  }

  lemma BeatsInNext(events: seq<Event>, n: nat, id: nat)
    requires n < |events|
    ensures
      var m := |events| - 1;
      BeatsIn(events, n, id) <==> BeatsIn(events[..m], n, id) || (events[m].Heartbeat? && events[m].id == id)
  {
    var m := |events| - 1;
    if BeatsIn(events[..m], n, id) {
      var k: nat :| n <= k < m && events[..m][k].Heartbeat? && events[..m][k].id == id;
      assert events[k] == events[..m][k];
    }
    if BeatsIn(events, n, id) {
      var k: nat :| n <= k < |events| && events[k].Heartbeat? && events[k].id == id;
      assert k < m ==> events[..m][k] == events[k];
    }
  }

  /** last_seen_at never goes back, and a heartbeat moves it. */
  lemma {:induction false} LastSeenMoves(events: seq<Event>, n: nat, id: nat, was: int) returns (at: int)
    requires ClocksAdvance(events) && n <= |events| && SeenAt(After(events[..n]), id, was)
    ensures SeenAt(After(events), id, at) && was <= at && (was == at ==> !BeatsIn(events, n, id))
    decreases |events|
  {
    if n == |events| {
      assert events[..n] == events;
      at := was;
    } else {
      var m := |events| - 1;
      assert events[..m][..n] == events[..n];
      ClocksAdvanceBefore(events, m);
      at := LastSeenMoves(events[..m], n, id, was);
      BeatsInNext(events, n, id);
      at := if events[m].Heartbeat? && events[m].id == id then events[m].at else at;
    }
  }

  /** Event k is the sweep's UPDATE for the stale server that event j read. */
  ghost predicate SweepsServer(events: seq<Event>, j: nat, k: nat, id: nat) {
    && j < k < |events| && events[j].SweepReads? && events[k].SweepWrites? && events[k].ticket == events[j].ticket
    && events[j].id == id
    && var at := After(events[..j]);
    && events[j].ticket !in at.held && id in at.db.servers
    && Stale(at.db.servers[id], events[j].now, events[j].threshold)
    && var later := After(events[..k]);
    && events[k].ticket in later.held && later.held[events[k].ticket] == Read(id, at.db.servers[id].lastSeenAt.value)
  }

  /** ... and its WHERE clause matches. */
  ghost predicate WritesOffline(events: seq<Event>, j: nat, k: nat, id: nat) {
    && SweepsServer(events, j, k, id)
    && CasMatches(After(events[..k]).db, id, After(events[..j]).db.servers[id].lastSeenAt.value)
  }

  /** The instant of the server's last heartbeat from event n on, or `was` if there is none. */
  function LastBeat(events: seq<Event>, n: nat, id: nat, was: int): int {
    if |events| <= n then was
    else
      var m := |events| - 1;
      if events[m].Heartbeat? && events[m].id == id then events[m].at else LastBeat(events[..m], n, id, was)
  }

  lemma StepMovesLastSeen(s: State, e: Event, id: nat, was: int)
    requires SeenAt(s, id, was)
    ensures SeenAt(Apply(s, e), id, if e.Heartbeat? && e.id == id then e.at else was)
  {
  }

  lemma NextLastSeen(events: seq<Event>, id: nat, was: int)
    requires events != [] && SeenAt(After(events[..|events| - 1]), id, was)
    ensures
      var e := events[|events| - 1];
      SeenAt(After(events), id, if e.Heartbeat? && e.id == id then e.at else was)
  {
    StepMovesLastSeen(After(events[..|events| - 1]), events[|events| - 1], id, was);
  }

  lemma {:induction false} LastSeenIsLastBeat(events: seq<Event>, n: nat, id: nat, was: int)
    requires n <= |events| && SeenAt(After(events[..n]), id, was)
    ensures SeenAt(After(events), id, LastBeat(events, n, id, was))
    decreases |events|
  {
    if n == |events| {
      assert events[..n] == events;
    } else {
      var m := |events| - 1;
      assert events[..m][..n] == events[..n];
      LastSeenIsLastBeat(events[..m], n, id, was);
      NextLastSeen(events, id, LastBeat(events[..m], n, id, was));
    }
  }

  /** With any clocks whatever: the sweep writes OFFLINE exactly when the server is not
      DISABLED at that moment and its last heartbeat since the read, if there was one, bears
      the very instant that was read. */
  lemma OfflineIffInstantUnchanged(events: seq<Event>, j: nat, k: nat, id: nat)
    requires SweepsServer(events, j, k, id)
    ensures
      var snapshot := After(events[..j]).db.servers[id].lastSeenAt.value;
      var servers := After(events[..k]).db.servers;
      && id in servers
      && (WritesOffline(events, j, k, id) <==>
            servers[id].status != DISABLED && LastBeat(events[..k], j, id, snapshot) == snapshot)
  {
    assert events[..k][..j] == events[..j];
    LastSeenIsLastBeat(events[..k], j, id, After(events[..j]).db.servers[id].lastSeenAt.value);
  }

  /** Event i is a heartbeat of the server. */
  predicate BeatAt(events: seq<Event>, i: nat, id: nat) {
    i < |events| && events[i].Heartbeat? && events[i].id == id
  }

  /** If there was a heartbeat, the last one is one of them. */
  lemma {:induction false} LastBeatIsABeat(events: seq<Event>, n: nat, i: nat, id: nat, was: int)
    requires n <= i && BeatAt(events, i, id)
    ensures exists l: nat :: n <= l && BeatAt(events, l, id) && events[l].at == LastBeat(events, n, id, was)
    decreases |events|
  {
    var m := |events| - 1;
    if BeatAt(events, m, id) {
    } else {
      assert BeatAt(events[..m], i, id);
      LastBeatIsABeat(events[..m], n, i, id, was);
      var l: nat :| n <= l && BeatAt(events[..m], l, id) && events[..m][l].at == LastBeat(events[..m], n, id, was);
      assert BeatAt(events, l, id);
    }
  }

  /** With any clocks whatever: the sweep overrides a heartbeat that committed since the
      read iff one of them bears the very instant that was read. */
  lemma HeartbeatOverriddenIffSameInstant(events: seq<Event>, j: nat, k: nat, id: nat)
    requires WritesOffline(events, j, k, id)
    ensures
      var snapshot := After(events[..j]).db.servers[id].lastSeenAt.value;
      (exists i: nat :: j <= i < k && BeatAt(events, i, id)) <==>
      (exists i: nat :: j <= i < k && BeatAt(events, i, id) && events[i].at == snapshot)
  {
    var snapshot := After(events[..j]).db.servers[id].lastSeenAt.value;
    if i: nat :| j <= i < k && BeatAt(events, i, id) {
      OfflineIffInstantUnchanged(events, j, k, id);
      assert BeatAt(events[..k], i, id);
      LastBeatIsABeat(events[..k], j, i, id, snapshot);
      var l: nat :| j <= l && BeatAt(events[..k], l, id) && events[..k][l].at == LastBeat(events[..k], j, id, snapshot);
      assert BeatAt(events, l, id) && events[l].at == snapshot;
    }
  }

  /** In particular never with clocks that advance; and OFFLINE is written only on a server
      that is not DISABLED at that moment. */
  lemma OfflineOnlyWithoutHeartbeat(events: seq<Event>, j: nat, k: nat, id: nat)
    requires ClocksAdvance(events) && WritesOffline(events, j, k, id)
    ensures forall i: nat | j <= i < k :: !(events[i].Heartbeat? && events[i].id == id)
    ensures
      var before, after := After(events[..k]).db.servers, After(events[..k + 1]).db.servers;
      id in before && id in after && before[id].status != DISABLED && after[id].status == OFFLINE
  {
    var until := events[..k];
    ClocksAdvanceBefore(events, k);
    assert until[..j] == events[..j];
    var at := LastSeenMoves(until, j, id, After(events[..j]).db.servers[id].lastSeenAt.value);
    assert !BeatsIn(until, j, id);
    forall i: nat | j <= i < k
      ensures !(events[i].Heartbeat? && events[i].id == id)
    {
      assert until[i] == events[i];
    }
    assert events[..k + 1][..k] == events[..k];
  }

  // ---------------------------------------------------------------- the alert and the status

  ghost predicate OfflineAlertMeansOffline(db: Db, id: nat) {
    Alerts.HasActive(db.alerts, OfflineKey(id)) ==> id in db.servers && db.servers[id].status == OFFLINE
  }

  /** As long as no admin edits the server's status, an ACTIVE AGENT_OFFLINE alert means
      that the server is OFFLINE. */
  lemma {:induction false} ActiveOfflineAlertMeansOffline(events: seq<Event>, id: nat)
    requires forall k: nat | k < |events| :: !(events[k].StatusByAdmin? && events[k].id == id)
    ensures OfflineAlertMeansOffline(After(events).db, id)
  {
    if events == [] {
    } else {
      var m := |events| - 1;
      var prefix := events[..m];
      var s := After(prefix);
      ActiveOfflineAlertMeansOffline(prefix, id);
      AlertsStayValid(prefix);
      assert !(events[m].StatusByAdmin? && events[m].id == id);
      match events[m]
      case Heartbeat(server, _, reachable) => BeatAlertsEffect(s.db.alerts, server, reachable);
      case SweepWrites(ticket) =>
        if ticket in s.held {
          Alerts.RaiseEffect(s.db.alerts, OfflineKey(s.held[ticket].server), Alerts.Critical);
        }
      case AlertByAdmin(a, action) => Alerts.AdminEffect(s.db.alerts, a, action);
      case _ =>
    }
  }

  /** An admin's status edit keeps it exactly when it sets OFFLINE or the alert is not
      ACTIVE: an OFFLINE server set to any other status keeps its alert. */
  lemma AdminEditLeavesTheAlert(s: State, id: nat, status: ServerStatus)
    requires id in s.db.servers && !s.db.servers[id].deleted
    ensures OfflineAlertMeansOffline(Apply(s, StatusByAdmin(id, status)).db, id) <==>
            !Alerts.HasActive(s.db.alerts, OfflineKey(id)) || status == OFFLINE
  {
  }

  // ---------------------------------------------------------------- the sweep, uninterrupted

  /** The servers among ids that a sweep marks: seen before, but not within the threshold, and
      neither deleted nor DISABLED nor OFFLINE already. */
  predicate Marks(servers: map<nat, Server>, ids: seq<nat>, id: nat, now: int, threshold: nat) {
    && id in ids && id in servers && !servers[id].deleted
    && (servers[id].status == ACTIVE || servers[id].status == UNREACHABLE)
    && servers[id].lastSeenAt.Some? && servers[id].lastSeenAt.value + threshold < now
  }

  /** The rows inserted are AGENT_OFFLINE alerts, one for each server marked without one. */
  ghost predicate SweptTo(before: Db, ids: seq<nat>, now: int, threshold: nat, after: Db) {
    && after.servers.Keys == before.servers.Keys && Alerts.Valid(after.alerts)
    && before.alerts <= after.alerts
    && |after.alerts| == |before.alerts| + FreshCount(before, ids, now, threshold)
    && (forall i | |before.alerts| <= i < |after.alerts| ::
          after.alerts[i].alertType == Alerts.AgentOffline && after.alerts[i].severity == Alerts.Critical)
    && (forall id | id in before.servers :: after.servers[id] ==
          if Marks(before.servers, ids, id, now, threshold) then before.servers[id].(status := OFFLINE)
          else before.servers[id])
    && (forall key :: Alerts.HasActive(after.alerts, key) <==>
          Alerts.HasActive(before.alerts, key) ||
          (key == Alerts.Key(Alerts.Server, key.id, Alerts.AgentOffline)
           && Marks(before.servers, ids, key.id, now, threshold)))
  }

  function StaleCount(servers: map<nat, Server>, ids: seq<nat>, now: int, threshold: nat): nat {
    if ids == [] then 0
    else
      var id := ids[|ids| - 1];
      StaleCount(servers, ids[..|ids| - 1], now, threshold)
        + if id in servers && Stale(servers[id], now, threshold) then 1 else 0
  }

  /** Of those, the servers without an ACTIVE alert: the alerts that are new. */
  ghost function FreshCount(db: Db, ids: seq<nat>, now: int, threshold: nat): nat {
    if ids == [] then 0
    else
      var id := ids[|ids| - 1];
      var unalerted :=
        id in db.servers && Stale(db.servers[id], now, threshold) && !Alerts.HasActive(db.alerts, OfflineKey(id));
      FreshCount(db, ids[..|ids| - 1], now, threshold) + if unalerted then 1 else 0
  }

  ghost predicate AllUnalerted(db: Db, ids: seq<nat>, now: int, threshold: nat) {
    forall id | Marks(db.servers, ids, id, now, threshold) :: !Alerts.HasActive(db.alerts, OfflineKey(id))
  }

  /** The servers marked are as many as the new alerts exactly when none of them had the
      alert already. */
  lemma {:induction false} MarkedIffNewAlerts(db: Db, ids: seq<nat>, now: int, threshold: nat)
    ensures FreshCount(db, ids, now, threshold) <= StaleCount(db.servers, ids, now, threshold)
    ensures FreshCount(db, ids, now, threshold) == StaleCount(db.servers, ids, now, threshold)
            <==> AllUnalerted(db, ids, now, threshold)
  {
    if ids != [] {
      var front, id := ids[..|ids| - 1], ids[|ids| - 1];
      MarkedIffNewAlerts(db, front, now, threshold);
      assert forall k :: k in ids <==> k in front || k == id;
      if AllUnalerted(db, ids, now, threshold) {
        assert forall k | Marks(db.servers, front, k, now, threshold) :: Marks(db.servers, ids, k, now, threshold);
        assert Marks(db.servers, ids, id, now, threshold) ==> !Alerts.HasActive(db.alerts, OfflineKey(id));
      }
    }
  }

  lemma SweepNext(before: Db, ids: seq<nat>, id: nat, now: int, threshold: nat, view: Db)
    requires SweptTo(before, ids, now, threshold, view) && id !in ids && id in before.servers
    ensures view.servers[id] == before.servers[id]
    ensures SweptTo(before, ids + [id], now, threshold,
                    if Stale(before.servers[id], now, threshold)
                    then MarkOffline(view, id, before.servers[id].lastSeenAt.value) else view)
    ensures StaleCount(before.servers, ids + [id], now, threshold) ==
            StaleCount(before.servers, ids, now, threshold) + if Stale(before.servers[id], now, threshold) then 1 else 0
  {
    assert forall k :: k in ids + [id] <==> k in ids || k == id;
    assert (ids + [id])[..|ids|] == ids;
    if Stale(before.servers[id], now, threshold) {
      Alerts.RaiseEffect(view.alerts, OfflineKey(id), Alerts.Critical);
    }
  }

  /** Where no admin has edited the status of a selected server, the number returned is that
      of the new alerts. */
  lemma SweepCountsNewAlerts(events: seq<Event>, ids: seq<nat>, now: int, threshold: nat)
    requires forall k: nat | k < |events| && events[k].StatusByAdmin? :: events[k].id !in ids
    ensures
      var db := After(events).db;
      AllUnalerted(db, ids, now, threshold)
      && StaleCount(db.servers, ids, now, threshold) == FreshCount(db, ids, now, threshold)
  {
    var db := After(events).db;
    forall id | Marks(db.servers, ids, id, now, threshold)
      ensures !Alerts.HasActive(db.alerts, OfflineKey(id))
    {
      ActiveOfflineAlertMeansOffline(events, id);
    }
    MarkedIffNewAlerts(db, ids, now, threshold);
  }

  lemma Extend(events: seq<Event>, e: Event)
    ensures After(events + [e]) == Apply(After(events), e)
  {
    assert (events + [e])[..|events|] == events;
  }

  /** A server seen once, at instant 0, and read as stale. */
  const READ_AS_STALE: seq<Event> := [Created(0)] + [Heartbeat(0, 0, true)] + [SweepReads(0, 0, 1000, 10)]

  lemma ReadAsStale()
    ensures
      var s := After(READ_AS_STALE);
      && s.db.servers == map[0 := Server(ACTIVE, Some(0), false)] && s.held == map[0 := Read(0, 0)]
      && Alerts.Valid(s.db.alerts)
  {
    var es: seq<Event> := [Created(0)];
    assert es[..0] == [];
    assert After(es) == State(Db(map[0 := Server(ACTIVE, None, false)], []), map[]);
    Extend(es, Heartbeat(0, 0, true));
    Extend(es + [Heartbeat(0, 0, true)], SweepReads(0, 0, 1000, 10));
    AlertsStayValid(READ_AS_STALE);
  }

  /** Otherwise it need not be: a sweep marks the server, an admin sets it ACTIVE without any
      heartbeat, which leaves the alert ACTIVE, and the next sweep counts the server again
      although the alert is not new. */
  lemma AdminEditMiscounts()
    ensures exists events: seq<Event> ::
              var db := After(events).db;
              && StaleCount(db.servers, [0], 1000, 10) == 1 && FreshCount(db, [0], 1000, 10) == 0
              && !OfflineAlertMeansOffline(db, 0)
  {
    ReadAsStale();
    MarkedAndEdited(After(READ_AS_STALE));
    var marked := READ_AS_STALE + [SweepWrites(0)];
    Extend(READ_AS_STALE, SweepWrites(0));
    Extend(marked, StatusByAdmin(0, ACTIVE));
    MarkedAgain(After(marked + [StatusByAdmin(0, ACTIVE)]).db);
  }

  ghost predicate ActiveWithAlert(db: Db) {
    db.servers == map[0 := Server(ACTIVE, Some(0), false)] && Alerts.HasActive(db.alerts, OfflineKey(0))
  }

  lemma MarkedAndEdited(s: State)
    requires s.db.servers == map[0 := Server(ACTIVE, Some(0), false)] && s.held == map[0 := Read(0, 0)]
    requires Alerts.Valid(s.db.alerts)
    ensures ActiveWithAlert(Apply(Apply(s, SweepWrites(0)), StatusByAdmin(0, ACTIVE)).db)
  {
    Alerts.RaiseEffect(s.db.alerts, OfflineKey(0), Alerts.Critical);
  }

  lemma MarkedAgain(db: Db)
    requires ActiveWithAlert(db)
    ensures StaleCount(db.servers, [0], 1000, 10) == 1 && FreshCount(db, [0], 1000, 10) == 0
    ensures !OfflineAlertMeansOffline(db, 0)
  {
    var ids: seq<nat> := [0];
    assert ids[..0] == [];
  }

  /** Interrupted, a sweep that marks a server inserts an alert iff none is ACTIVE at that
      moment. If one is, an admin has edited the server's status before, or another sweep has
      marked it since this one read it. */
  lemma MarkWithoutNewAlert(events: seq<Event>, j: nat, k: nat, id: nat)
    requires WritesOffline(events, j, k, id)
    ensures
      var before, after := After(events[..k]).db.alerts, After(events[..k + 1]).db.alerts;
      && |after| == |before| + (if Alerts.HasActive(before, OfflineKey(id)) then 0 else 1)
      && (Alerts.HasActive(before, OfflineKey(id)) ==> EditedBefore(events, k, id) || TurnedSince(events, j, k, id))
  {
    MarkInserts(events, j, k, id);
    if Alerts.HasActive(After(events[..k]).db.alerts, OfflineKey(id)) && !EditedBefore(events, k, id) {
      assert IsOffline(After(events[..k]), id) by {
        forall i: nat | i < k
          ensures !(events[..k][i].StatusByAdmin? && events[..k][i].id == id)
        {
          assert !EditAt(events, i, id);
        }
        ActiveOfflineAlertMeansOffline(events[..k], id);
      }
      var i := FindTurn(events, j, k, id);
    }
  }

  lemma MarkInserts(events: seq<Event>, j: nat, k: nat, id: nat)
    requires WritesOffline(events, j, k, id)
    ensures
      var before, after := After(events[..k]).db.alerts, After(events[..k + 1]).db.alerts;
      |after| == |before| + (if Alerts.HasActive(before, OfflineKey(id)) then 0 else 1)
  {
    assert events[..k + 1][..k] == events[..k];
  }

  predicate EditAt(events: seq<Event>, i: nat, id: nat) {
    i < |events| && events[i].StatusByAdmin? && events[i].id == id
  }

  predicate EditedBefore(events: seq<Event>, k: nat, id: nat) { exists i: nat :: i < k && EditAt(events, i, id) }

  ghost predicate TurnedSince(events: seq<Event>, j: nat, k: nat, id: nat) {
    exists i: nat :: j <= i < k && TurnsOffline(events, i, id)
  }

  ghost predicate IsOffline(s: State, id: nat) { id in s.db.servers && s.db.servers[id].status == OFFLINE }

  /** Event i is a sweep's UPDATE that turns the server OFFLINE. */
  ghost predicate TurnsOffline(events: seq<Event>, i: nat, id: nat) {
    && i < |events| && events[i].SweepWrites?
    && var s := After(events[..i]);
    && events[i].ticket in s.held && s.held[events[i].ticket].server == id
    && CasMatches(s.db, id, s.held[events[i].ticket].snapshot)
  }

  lemma OnlySweepsTurnOffline(events: seq<Event>, i: nat, id: nat)
    requires i < |events| && !IsOffline(After(events[..i]), id) && IsOffline(After(events[..i + 1]), id)
    ensures TurnsOffline(events, i, id) || EditAt(events, i, id)
  {
    assert events[..i + 1][..i] == events[..i];
  }

  lemma {:induction false} FindTurn(events: seq<Event>, j: nat, k: nat, id: nat) returns (i: nat)
    requires j <= k <= |events| && !IsOffline(After(events[..j]), id) && IsOffline(After(events[..k]), id)
    requires !EditedBefore(events, k, id)
    ensures j <= i < k && TurnsOffline(events, i, id)
    decreases k - j
  {
    if IsOffline(After(events[..j + 1]), id) {
      OnlySweepsTurnOffline(events, j, id);
      assert !EditAt(events, j, id);
      return j;
    }
    i := FindTurn(events, j + 1, k, id);
  }

  class Worker {
    var servers: map<nat, Server>
    const alerts: AlertTable.Table

    constructor ()
      ensures fresh(alerts) && View() == After([]).db
    {
      servers := map[];
      alerts := new AlertTable.Table();
    }

    function View(): Db
      reads this, alerts
    {
      Db(servers, alerts.rows)
    }

    /** The guarded UPDATE and the alert, one transaction. */
    method CommitOffline(id: nat, snapshot: int) returns (marked: bool)
      requires Alerts.Valid(alerts.rows)
      modifies this`servers, alerts
      ensures View() == MarkOffline(old(View()), id, snapshot) && Alerts.Valid(alerts.rows)
      ensures marked <==> CasMatches(old(View()), id, snapshot)
    {
      if id !in servers || servers[id].lastSeenAt != Some(snapshot) || servers[id].status == DISABLED {
        return false;
      }
      servers := servers[id := servers[id].(status := OFFLINE)];
      var raised := alerts.RaiseAlertIfAbsent(OfflineKey(id), Alerts.Critical);
      return raised.Some?;
    }

    /** One server of the loop: the filter, the staleness test and the guarded write. */
    method CheckServer(id: nat, now: int, threshold: nat) returns (marked: bool)
      requires Alerts.Valid(alerts.rows) && id in servers
      modifies this`servers, alerts
      ensures marked <==> Stale(old(servers)[id], now, threshold)
      ensures View() == if marked then MarkOffline(old(View()), id, old(servers)[id].lastSeenAt.value) else old(View())
      ensures Alerts.Valid(alerts.rows)
    {
      var server := servers[id];
      if server.deleted || server.status == DISABLED || server.status == OFFLINE || server.lastSeenAt == None {
        return false;
      }
      var seenAtSnapshot := server.lastSeenAt.value;
      if now - seenAtSnapshot <= threshold {
        return false;
      }
      marked := CommitOffline(id, seenAtSnapshot);
    }

    /** Every stale server among those selected goes OFFLINE with an ACTIVE alert, nothing
        else changes. The returned number counts the servers marked; it is the number of
        alerts inserted iff none of those had its alert ACTIVE already. */
    method CheckAgentOffline(ids: seq<nat>, now: int, threshold: nat) returns (count: nat)
      requires Alerts.Valid(alerts.rows)
      requires forall i, k :: 0 <= i < k < |ids| ==> ids[i] != ids[k]
      requires forall id :: id in ids ==> id in servers
      modifies this`servers, alerts
      ensures SweptTo(old(View()), ids, now, threshold, View())
      ensures count == StaleCount(old(servers), ids, now, threshold)
      ensures count == |alerts.rows| - |old(alerts.rows)| <==> AllUnalerted(old(View()), ids, now, threshold)
    {
      ghost var before := View();
      count := 0;
      for i := 0 to |ids|
        invariant SweptTo(before, ids[..i], now, threshold, View())
        invariant count == StaleCount(before.servers, ids[..i], now, threshold)
      {
        var id := ids[i];
        assert id in ids;
        SweepNext(before, ids[..i], id, now, threshold, View());
        assert ids[..i + 1] == ids[..i] + [id];
        var marked := CheckServer(id, now, threshold);
        if marked {
          count := count + 1;
        }
      }
      assert ids[..|ids|] == ids;
      MarkedIffNewAlerts(before, ids, now, threshold);
    }
  }
}
