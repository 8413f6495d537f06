/** The disk part of a heartbeat (agent_heartbeat of app/routers/agents.py): samples are
    merged into the disk table, then every touched disk is checked against its thresholds.

    A disk's id is its index; (server, mount path) is unique. */
module Heartbeat {
  import opened Wrappers
  import Alerts
  import AlertTable
  import AgentOffline

  datatype Disk = Disk(
    serverId: nat, mountPath: string, total: nat, free: nat, warning: nat, critical: nat, active: bool)
  {
    /** The CHECK constraints on the thresholds. */
    predicate Valid() { 0 < warning < critical <= 100 }
  }

  datatype Sample = Sample(mountPath: string, total: nat, free: nat)

  function NewDisk(serverId: nat, s: Sample): Disk {
    Disk(serverId, s.mountPath, s.total, s.free, 80, 90, false)
  }

  ghost predicate UniquePaths(disks: seq<Disk>) {
    forall i: nat, k: nat :: i < k < |disks| ==>
      !(disks[i].serverId == disks[k].serverId && disks[i].mountPath == disks[k].mountPath)
  }

  ghost predicate ValidDisks(disks: seq<Disk>) {
    UniquePaths(disks) && forall i :: 0 <= i < |disks| ==> disks[i].Valid()
  }

  /** The last sample for a mount path: a repeated path overwrites. */
  function LastSample(samples: seq<Sample>, path: string): (s: Option<Sample>)
    ensures s.None? <==> forall i :: 0 <= i < |samples| ==> samples[i].mountPath != path
    ensures s.Some? ==> s.value in samples && s.value.mountPath == path
  {
    if samples == [] then None
    else if samples[|samples| - 1].mountPath == path then Some(samples[|samples| - 1])
    else
      assert samples == samples[..|samples| - 1] + [samples[|samples| - 1]];
      LastSample(samples[..|samples| - 1], path)
  }

  predicate IsDisk(disk: Disk, serverId: nat, path: string) { disk.serverId == serverId && disk.mountPath == path }

  /** The stored usage is that of the last sample of the disk's path. */
  predicate Sampled(disk: Disk, samples: seq<Sample>) {
    var s := LastSample(samples, disk.mountPath);
    s.Some? && disk.total == s.value.total && disk.free == s.value.free
  }

  /** The disk table after the samples of a server: a disk of that server whose path was
      sampled has the usage of its last sample and is otherwise as before, every other
      disk is untouched, and new disks are inactive with the default thresholds. */
  ghost predicate Synced(before: seq<Disk>, serverId: nat, samples: seq<Sample>, after: seq<Disk>) {
    && |before| <= |after| && ValidDisks(after)
    && (forall i: nat | i < |before| ::
          if before[i].serverId == serverId && LastSample(samples, before[i].mountPath).Some?
          then after[i] == before[i].(total := after[i].total, free := after[i].free) && Sampled(after[i], samples)
          else after[i] == before[i])
    && (forall i: nat | |before| <= i < |after| ::
          && after[i].serverId == serverId && Sampled(after[i], samples)
          && !after[i].active && after[i].warning == 80 && after[i].critical == 90)
  }

  /** The disks the samples name, in their order. */
  ghost predicate Touched(disks: seq<Disk>, serverId: nat, samples: seq<Sample>, touched: seq<nat>) {
    && |touched| == |samples|
    && forall k: nat | k < |samples| ::
         touched[k] < |disks| && IsDisk(disks[touched[k]], serverId, samples[k].mountPath)
  }

  /** disk.total_bytes / free_bytes of one found or created disk. */
  function Merge(disks: seq<Disk>, id: nat, serverId: nat, s: Sample): seq<Disk>
    requires id <= |disks|
  {
    if id < |disks| then disks[id := disks[id].(total := s.total, free := s.free)] else disks + [NewDisk(serverId, s)]
  }

  lemma LastSampleNext(samples: seq<Sample>, s: Sample, path: string)
    ensures LastSample(samples + [s], path) == if s.mountPath == path then Some(s) else LastSample(samples, path)
  {
    assert (samples + [s])[..|samples|] == samples;
  }

  /** The id of the server's disk at that path, or the next free one. */
  predicate Found(disks: seq<Disk>, serverId: nat, path: string, id: nat) {
    && id <= |disks|
    && if id < |disks| then IsDisk(disks[id], serverId, path)
       else forall i :: 0 <= i < |disks| ==> !IsDisk(disks[i], serverId, path)
  }

  lemma MergeNext(before: seq<Disk>, serverId: nat, samples: seq<Sample>, s: Sample, view: seq<Disk>, id: nat)
    requires Synced(before, serverId, samples, view) && Found(view, serverId, s.mountPath, id)
    ensures Synced(before, serverId, samples + [s], Merge(view, id, serverId, s))
  {
    var after := Merge(view, id, serverId, s);
    forall i: nat | i < |view| && i != id
      ensures after[i] == view[i]
      ensures after[i].serverId == serverId ==>
                LastSample(samples + [s], after[i].mountPath) == LastSample(samples, view[i].mountPath)
    {
      LastSampleNext(samples, s, view[i].mountPath);
      assert id < |view| ==> !(view[id].serverId == view[i].serverId && view[id].mountPath == view[i].mountPath);
    }
    LastSampleNext(samples, s, s.mountPath);
    assert UniquePaths(after);
  }

  lemma TouchedNext(view: seq<Disk>, serverId: nat, samples: seq<Sample>, s: Sample, touched: seq<nat>, id: nat)
    requires Touched(view, serverId, samples, touched) && Found(view, serverId, s.mountPath, id)
    ensures Touched(Merge(view, id, serverId, s), serverId, samples + [s], touched + [id])
  {
  }

  // ---------------------------------------------------------------- thresholds

  datatype Level = Skipped | Fine | Low | Full

  /** used_pct >= threshold, as exact integers. */
  predicate Reaches(disk: Disk, threshold: nat) { (disk.total - disk.free) * 100 >= threshold * disk.total }

  function LevelOf(disk: Disk): Level {
    if !disk.active || disk.total == 0 then Skipped
    else if Reaches(disk, disk.critical) then Full
    else if Reaches(disk, disk.warning) then Low
    else Fine
  }

  function LowKey(id: nat): Alerts.Key { Alerts.Key(Alerts.Disk, id, Alerts.DiskSpaceLow) }

  function FullKey(id: nat): Alerts.Key { Alerts.Key(Alerts.Disk, id, Alerts.DiskSpaceCritical) }

  ghost function LevelStep(rows: seq<Alerts.Alert>, id: nat, level: Level): seq<Alerts.Alert> {
    match level
    case Skipped => rows
    case Full => Alerts.Resolve(Alerts.Raise(rows, FullKey(id), Alerts.Critical), LowKey(id), None)
    case Low => Alerts.Resolve(Alerts.Raise(rows, LowKey(id), Alerts.Warning), FullKey(id), None)
    case Fine => Alerts.Resolve(Alerts.Resolve(rows, LowKey(id), None), FullKey(id), None)
  }

  lemma LevelStepEffect(rows: seq<Alerts.Alert>, id: nat, level: Level)
    requires Alerts.Valid(rows)
    ensures Alerts.Valid(LevelStep(rows, id, level))
    ensures forall key :: Alerts.HasActive(LevelStep(rows, id, level), key) <==>
              if level != Skipped && key == FullKey(id) then level == Full
              else if level != Skipped && key == LowKey(id) then level == Low
              else Alerts.HasActive(rows, key)
  {
    match level
    case Skipped =>
    case Full =>
      Alerts.RaiseEffect(rows, FullKey(id), Alerts.Critical);
      Alerts.ResolveEffect(Alerts.Raise(rows, FullKey(id), Alerts.Critical), LowKey(id), None);
    case Low =>
      Alerts.RaiseEffect(rows, LowKey(id), Alerts.Warning);
      Alerts.ResolveEffect(Alerts.Raise(rows, LowKey(id), Alerts.Warning), FullKey(id), None);
    case Fine =>
      Alerts.ResolveEffect(rows, LowKey(id), None);
      Alerts.ResolveEffect(Alerts.Resolve(rows, LowKey(id), None), FullKey(id), None);
  }

  predicate DiskAlert(key: Alerts.Key) {
    key.kind == Alerts.Disk && (key.alertType == Alerts.DiskSpaceLow || key.alertType == Alerts.DiskSpaceCritical)
  }

  ghost predicate Checked(disks: seq<Disk>, touched: seq<nat>, id: nat) {
    id in touched && id < |disks| && disks[id].active && disks[id].total > 0
  }

  /** Usage in percent, against the disk's own thresholds. */
  predicate IsFull(disk: Disk) { (disk.total - disk.free) * 100 >= disk.critical * disk.total }

  predicate IsLow(disk: Disk) { !IsFull(disk) && (disk.total - disk.free) * 100 >= disk.warning * disk.total }

  lemma LevelMeans(disk: Disk)
    ensures LevelOf(disk) == Skipped <==> !disk.active || disk.total == 0
    ensures disk.active && disk.total > 0 ==>
              (LevelOf(disk) == Full <==> IsFull(disk)) && (LevelOf(disk) == Low <==> IsLow(disk))
  {
  }

  /** What the check of one disk does: the alert it raises is CRITICAL for a full disk and a
      WARNING for a low one, the other of the two goes. */
  ghost predicate DiskChecked(rows: seq<Alerts.Alert>, id: nat, disk: Disk, after: seq<Alerts.Alert>) {
    var full := Alerts.Key(Alerts.Disk, id, Alerts.DiskSpaceCritical);
    var low := Alerts.Key(Alerts.Disk, id, Alerts.DiskSpaceLow);
    if !disk.active || disk.total == 0 then after == rows
    else if IsFull(disk) then
      exists mid :: Alerts.OnlyAlert(rows, full, true, Alerts.Critical, mid)
                    && Alerts.OnlyAlert(mid, low, false, Alerts.Warning, after)
    else
      exists mid :: Alerts.OnlyAlert(rows, low, IsLow(disk), Alerts.Warning, mid)
                    && Alerts.OnlyAlert(mid, full, false, Alerts.Critical, after)
  }

  lemma LevelStepMeans(rows: seq<Alerts.Alert>, id: nat, disk: Disk)
    requires Alerts.Valid(rows)
    ensures DiskChecked(rows, id, disk, LevelStep(rows, id, LevelOf(disk)))
  {
    var full := Alerts.Key(Alerts.Disk, id, Alerts.DiskSpaceCritical);
    var low := Alerts.Key(Alerts.Disk, id, Alerts.DiskSpaceLow);
    LevelMeans(disk);
    if LevelOf(disk) == Full {
      Alerts.RaiseMeans(rows, full, Alerts.Critical);
      Alerts.ResolveMeans(Alerts.Raise(rows, full, Alerts.Critical), low, None, Alerts.Warning);
    } else if LevelOf(disk) == Low {
      Alerts.RaiseMeans(rows, low, Alerts.Warning);
      Alerts.ResolveMeans(Alerts.Raise(rows, low, Alerts.Warning), full, None, Alerts.Critical);
    } else if LevelOf(disk) == Fine {
      Alerts.ResolveMeans(rows, low, None, Alerts.Warning);
      Alerts.ResolveMeans(Alerts.Resolve(rows, low, None), full, None, Alerts.Critical);
    }
  }

  /** Every touched active disk of known size: DISK_SPACE_CRITICAL is ACTIVE iff its usage
      reaches the critical threshold, DISK_SPACE_LOW iff it reaches the warning one only.
      No other alert changes. */
  ghost predicate Alerted(before: seq<Alerts.Alert>, disks: seq<Disk>, touched: seq<nat>, after: seq<Alerts.Alert>) {
    && Alerts.Valid(after)
    && (forall id: nat | Checked(disks, touched, id) ::
          && (Alerts.HasActive(after, Alerts.Key(Alerts.Disk, id, Alerts.DiskSpaceCritical)) <==> IsFull(disks[id]))
          && (Alerts.HasActive(after, Alerts.Key(Alerts.Disk, id, Alerts.DiskSpaceLow)) <==> IsLow(disks[id])))
    && (forall key: Alerts.Key | !(DiskAlert(key) && Checked(disks, touched, key.id)) ::
          Alerts.HasActive(after, key) <==> Alerts.HasActive(before, key))
  }

  lemma AlertedNext(before: seq<Alerts.Alert>, disks: seq<Disk>, touched: seq<nat>, id: nat, rows: seq<Alerts.Alert>)
    requires Alerted(before, disks, touched, rows) && id < |disks|
    ensures Alerted(before, disks, touched + [id], LevelStep(rows, id, LevelOf(disks[id])))
  {
    assert forall k :: k in touched + [id] <==> k in touched || k == id;
    LevelStepEffect(rows, id, LevelOf(disks[id]));
    LevelMeans(disks[id]);
    assert forall k: nat :: Checked(disks, touched + [id], k) <==>
                            Checked(disks, touched, k) || (k == id && LevelOf(disks[id]) != Skipped);
  }

  /** The same with the percentages: CRITICAL ACTIVE iff used >= critical, LOW ACTIVE iff
      warning <= used < critical. */
  lemma LevelIsPercentage(disk: Disk)
    requires disk.Valid() && disk.active && disk.total > 0
    ensures
      var pct := (disk.total - disk.free) as real / disk.total as real * 100.0;
      && (IsFull(disk) <==> pct >= disk.critical as real)
      && (IsLow(disk) <==> disk.warning as real <= pct < disk.critical as real)
  {
    CrossMultiply(disk, disk.critical);
    CrossMultiply(disk, disk.warning);
  }

  lemma CrossMultiply(disk: Disk, threshold: nat)
    requires disk.total > 0
    ensures Reaches(disk, threshold) <==>
            (disk.total - disk.free) as real / disk.total as real * 100.0 >= threshold as real
  {
    var used, total := (disk.total - disk.free) as real, disk.total as real;
    var ratio := used / total;
    assert ratio * total == used;
    assert ((disk.total - disk.free) * 100) as real == ratio * 100.0 * total;
    assert (threshold * disk.total) as real == threshold as real * total;
    if ratio * 100.0 >= threshold as real {
      assert ratio * 100.0 * total >= threshold as real * total;
    } else {
      assert ratio * 100.0 * total < threshold as real * total;
    }
  }

  /** The disk rows a heartbeat leaves in its transaction. */
  function DiskWrites(touched: seq<nat>): seq<AlertTable.Write> {
    seq(|touched|, i requires 0 <= i < |touched| => AlertTable.OtherRow("disks", touched[i]))
  }

  lemma DiskWritesNext(touched: seq<nat>, id: nat)
    ensures DiskWrites(touched + [id]) == DiskWrites(touched) + [AlertTable.OtherRow("disks", id)]
  {
  }

  lemma SyncNext(before: seq<Disk>, serverId: nat, samples: seq<Sample>, i: nat, view: seq<Disk>,
                 touched: seq<nat>, id: nat)
    requires i < |samples| && Found(view, serverId, samples[i].mountPath, id)
    requires Synced(before, serverId, samples[..i], view) && Touched(view, serverId, samples[..i], touched)
    ensures Synced(before, serverId, samples[..i + 1], Merge(view, id, serverId, samples[i]))
    ensures Touched(Merge(view, id, serverId, samples[i]), serverId, samples[..i + 1], touched + [id])
  {
    MergeNext(before, serverId, samples[..i], samples[i], view, id);
    TouchedNext(view, serverId, samples[..i], samples[i], touched, id);
    assert samples[..i + 1] == samples[..i] + [samples[i]];
  }

  lemma PendingNext(pending: seq<AlertTable.Write>, touched: seq<nat>, id: nat)
    ensures pending + DiskWrites(touched) + [AlertTable.OtherRow("disks", id)] == pending + DiskWrites(touched + [id])
  {
    DiskWritesNext(touched, id);
  }

  lemma DiskWritesAreThere(touched: seq<nat>)
    ensures forall id | id in touched :: AlertTable.OtherRow("disks", id) in DiskWrites(touched)
  {
    forall id | id in touched
      ensures AlertTable.OtherRow("disks", id) in DiskWrites(touched)
    {
      var i :| 0 <= i < |touched| && touched[i] == id;
      assert DiskWrites(touched)[i] == AlertTable.OtherRow("disks", id);
    }
  }

  /** What other sessions commit between the alert helper's lookup of a key and its insert: the
      table they leave. */
  type Others = (Alerts.Key, seq<Alerts.Alert>) -> seq<Alerts.Alert>

  ghost predicate KeepValid(others: Others) {
    forall key, rows | Alerts.Valid(rows) :: Alerts.Valid(others(key, rows))
  }

  ghost predicate Quiet(others: Others) {
    forall key, rows :: others(key, rows) == rows
  }

  class Backend {
    var servers: map<nat, AgentOffline.Server>
    var disks: seq<Disk>
    const alerts: AlertTable.Table

    constructor ()
      ensures fresh(alerts) && servers == map[] && disks == [] && alerts.rows == []
    {
      servers, disks := map[], [];
      alerts := new AlertTable.Table();
    }

    /** The find-or-create loop. */
    method SyncDisks(serverId: nat, samples: seq<Sample>) returns (touched: seq<nat>)
      requires ValidDisks(disks)
      modifies this`disks, alerts`pending
      ensures Synced(old(disks), serverId, samples, disks) && Touched(disks, serverId, samples, touched)
      ensures alerts.pending == old(alerts.pending) + DiskWrites(touched)
    {
      ghost var before := disks;
      touched := [];
      for i := 0 to |samples|
        invariant Synced(before, serverId, samples[..i], disks) && Touched(disks, serverId, samples[..i], touched)
        invariant alerts.pending == old(alerts.pending) + DiskWrites(touched)
      {
        var s := samples[i];
        ghost var view := disks;
        var id := SyncDisk(serverId, s);
        SyncNext(before, serverId, samples, i, view, touched, id);
        PendingNext(old(alerts.pending), touched, id);
        touched := touched + [id];
      }
      assert samples[..|samples|] == samples;
    }

    /** Finds or creates the disk of one sample. */
    method SyncDisk(serverId: nat, s: Sample) returns (id: nat)
      requires ValidDisks(disks)
      modifies this`disks, alerts`pending
      ensures Found(old(disks), serverId, s.mountPath, id) && disks == Merge(old(disks), id, serverId, s)
      ensures alerts.pending == old(alerts.pending) + [AlertTable.OtherRow("disks", id)]
    {
      id := FindDisk(serverId, s.mountPath);
      if id < |disks| {
        disks := disks[id := disks[id].(total := s.total, free := s.free)];
      } else {
        disks := disks + [NewDisk(serverId, s)];
      }
      alerts.WriteRow("disks", id);
    }

    /** scalar_one_or_none(): the disk's id, or |disks| when there is none. */
    method FindDisk(serverId: nat, path: string) returns (id: nat)
      requires ValidDisks(disks)
      ensures Found(disks, serverId, path, id)
      ensures id < |disks| ==> forall i :: 0 <= i < |disks| && IsDisk(disks[i], serverId, path) ==> i == id
    {
      id := 0;
      while id < |disks| && !IsDisk(disks[id], serverId, path)
        invariant id <= |disks| && forall i :: 0 <= i < id ==> !IsDisk(disks[i], serverId, path)
      {
        id := id + 1;
      }
    }

    /** The helper, racing against the others. Winning or losing, the key is ACTIVE and what
        was pending stays pending. */
    method Raise(key: Alerts.Key, severity: Alerts.Severity, others: Others)
      requires Alerts.Valid(alerts.rows) && KeepValid(others)
      modifies alerts
      ensures Alerts.Valid(alerts.rows) && Alerts.HasActive(alerts.rows, key)
      ensures old(alerts.pending) <= alerts.pending
      ensures Quiet(others) ==> alerts.rows == Alerts.Raise(old(alerts.rows), key, severity)
    {
      var left := others(key, alerts.rows);
      Alerts.RaiseEffect(left, key, severity);
      var _ := alerts.RaiseAmidOthers(key, severity, left);
    }

    method CheckDisk(id: nat, others: Others)
      requires id < |disks| && Alerts.Valid(alerts.rows) && KeepValid(others)
      modifies alerts
      ensures Alerts.Valid(alerts.rows) && old(alerts.pending) <= alerts.pending
      ensures Quiet(others) ==>
                alerts.rows == LevelStep(old(alerts.rows), id, LevelOf(disks[id]))
                && DiskChecked(old(alerts.rows), id, disks[id], alerts.rows)
    {
      LevelStepMeans(alerts.rows, id, disks[id]);
      LevelStepEffect(alerts.rows, id, LevelOf(disks[id]));
      var disk := disks[id];
      if !disk.active || disk.total == 0 {
        return;
      }
      var used := (disk.total - disk.free) * 100;
      if used >= disk.critical * disk.total {
        Raise(FullKey(id), Alerts.Critical, others);
        var _ := alerts.ResolveActiveAlert(LowKey(id), None);
      } else if used >= disk.warning * disk.total {
        Raise(LowKey(id), Alerts.Warning, others);
        var _ := alerts.ResolveActiveAlert(FullKey(id), None);
      } else {
        var _ := alerts.ResolveActiveAlert(LowKey(id), None);
        var _ := alerts.ResolveActiveAlert(FullKey(id), None);
      }
    }

    method CheckThresholds(touched: seq<nat>, others: Others)
      requires Alerts.Valid(alerts.rows) && forall k :: 0 <= k < |touched| ==> touched[k] < |disks|
      requires KeepValid(others)
      modifies alerts
      ensures Alerts.Valid(alerts.rows) && old(alerts.pending) <= alerts.pending
      ensures Quiet(others) ==> Alerted(old(alerts.rows), disks, touched, alerts.rows)
    {
      ghost var before := alerts.rows;
      for i := 0 to |touched|
        invariant Alerts.Valid(alerts.rows) && old(alerts.pending) <= alerts.pending
        invariant Quiet(others) ==> Alerted(before, disks, touched[..i], alerts.rows)
      {
        if Quiet(others) {
          AlertedNext(before, disks, touched[..i], touched[i], alerts.rows);
        }
        assert touched[..i + 1] == touched[..i] + [touched[i]];
        CheckDisk(touched[i], others);
      }
      assert touched[..|touched|] == touched;
    }

    method UpdateServer(serverId: nat, reachable: bool, now: int, others: Others)
      requires serverId in servers && Alerts.Valid(alerts.rows) && KeepValid(others)
      modifies this`servers, alerts
      ensures servers == old(servers)[serverId := AgentOffline.Beat(old(servers)[serverId], now, reachable)]
      ensures Quiet(others) ==>
                alerts.rows == AgentOffline.BeatAlerts(old(alerts.rows), serverId, reachable)
                && AgentOffline.BeatAlerted(old(alerts.rows), serverId, reachable, alerts.rows)
      ensures Alerts.Valid(alerts.rows)
      ensures old(alerts.pending) + [AlertTable.OtherRow("servers", serverId)] <= alerts.pending
    {
      AgentOffline.BeatAlertsMean(alerts.rows, serverId, reachable);
      var server := servers[serverId].(lastSeenAt := Some(now));
      if server.status != AgentOffline.DISABLED {
        server := server.(status := if reachable then AgentOffline.ACTIVE else AgentOffline.UNREACHABLE);
      }
      servers := servers[serverId := server];
      alerts.WriteRow("servers", serverId);
      var _ := alerts.ResolveActiveAlert(AgentOffline.OfflineKey(serverId), None);
      if !reachable {
        Raise(AgentOffline.UnreachableKey(serverId), Alerts.Critical, others);
      } else {
        var _ := alerts.ResolveActiveAlert(AgentOffline.UnreachableKey(serverId), None);
      }
    }

    /** A whole heartbeat, one transaction. However many of its alert inserts lose a race and
        are rolled back to their savepoints, the update of the server and of every disk is still
        there to be committed; without any race the alerts are those specified. */
    method AgentHeartbeat(serverId: nat, reachable: bool, samples: seq<Sample>, now: int, others: Others)
      returns (ok: bool)
      requires ValidDisks(disks) && Alerts.Valid(alerts.rows) && KeepValid(others)
      modifies this`servers, this`disks, alerts
      ensures ok <==> serverId in old(servers)
      ensures !ok ==> servers == old(servers) && disks == old(disks) && alerts.rows == old(alerts.rows)
                      && alerts.pending == old(alerts.pending)
      ensures ok ==> old(alerts.pending) + [AlertTable.OtherRow("servers", serverId)] <= alerts.pending
      ensures ok ==>
                var before := old(servers)[serverId];
                var status := if before.status == AgentOffline.DISABLED then AgentOffline.DISABLED
                              else if reachable then AgentOffline.ACTIVE else AgentOffline.UNREACHABLE;
                servers == old(servers)[serverId := AgentOffline.Server(status, Some(now), before.deleted)]
      ensures ok ==> Synced(old(disks), serverId, samples, disks)
      ensures ok ==> exists touched: seq<nat> ::
                && Touched(disks, serverId, samples, touched)
                && (forall id | id in touched :: AlertTable.OtherRow("disks", id) in alerts.pending)
                && (Quiet(others) ==>
                      exists beaten ::
                        && AgentOffline.BeatAlerted(old(alerts.rows), serverId, reachable, beaten)
                        && Alerted(beaten, disks, touched, alerts.rows))
    {
      if serverId !in servers {
        return false;
      }
      UpdateServer(serverId, reachable, now, others);
      var touched := SyncDisks(serverId, samples);
      assert forall id | id in touched :: AlertTable.OtherRow("disks", id) in alerts.pending by {
        DiskWritesAreThere(touched);
      }
      CheckThresholds(touched, others);
      return true;
    }
  }
}
