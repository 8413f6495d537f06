/** What holds along a whole history of the job-run machine. */
module JobRunHistories {
  import opened Wrappers
  import opened JobRuns
  import opened JobRunMachine
  import Effects = JobRunEffects
  import Alerts

  // ---------------------------------------------------------------- how a run evolves

  lemma StepEvolves(s: State, e: Event, id: nat)
    requires Inv(s)
    ensures s.db.nextRunId <= Apply(s, e).db.nextRunId
    ensures id in s.db.runs && id in Apply(s, e).db.runs ==> Evolves(s.db.runs[id], Apply(s, e).db.runs[id])
    ensures id < s.db.nextRunId && id !in s.db.runs ==> id !in Apply(s, e).db.runs
  {
    if e.Finish? {
      if e.ticket in s.inFlight && Wins(s.db, s.inFlight[e.ticket]) {
        var req := s.inFlight[e.ticket];
        WrittenEvolves(s.db.runs[req.runId], req);
      }
    } else {
      UnguardedStepEvolves(s, e, id);
    }
  }

  lemma UnguardedStepEvolves(s: State, e: Event, id: nat)
    requires References(s.db) && !e.Finish?
    ensures s.db.nextRunId <= Apply(s, e).db.nextRunId
    ensures id in s.db.runs && id in Apply(s, e).db.runs ==> Apply(s, e).db.runs[id] == s.db.runs[id]
    ensures id < s.db.nextRunId && id !in s.db.runs ==> id !in Apply(s, e).db.runs
  {
  }

  /** A terminal run is final except for the acknowledgement of a cancellation, and
      dispatched_at never changes once set -- between any two points of a history. */
  lemma {:induction false} RunEvolves(events: seq<Event>, n: nat, id: nat)
    requires n <= |events| && id in After(events[..n]).db.runs
    ensures id < After(events).db.nextRunId
    ensures id in After(events).db.runs ==> Evolves(After(events[..n]).db.runs[id], After(events).db.runs[id])
    decreases |events|
  {
    EveryReachableState(events[..n]);
    if n == |events| {
      assert events[..n] == events;
    } else {
      var prefix := events[..|events| - 1];
      assert prefix[..n] == events[..n];
      RunEvolves(prefix, n, id);
      EveryReachableState(prefix);
      StepEvolves(After(prefix), events[|events| - 1], id);
    }
  }

  /** Event i of the history is the guarded UPDATE of this request, and it matches its row. */
  ghost predicate WinsAt(events: seq<Event>, i: nat, req: Request) {
    && i < |events| && events[i].Finish?
    && var s := After(events[..i]);
    && events[i].ticket in s.inFlight && s.inFlight[events[i].ticket] == req && Wins(s.db, req)
  }

  lemma WinnerIsWritten(events: seq<Event>, i: nat, req: Request)
    requires WinsAt(events, i, req)
    ensures req.runId in After(events[..i + 1]).db.runs
    ensures After(events[..i + 1]).db.runs[req.runId] == Written(After(events[..i]).db.runs[req.runId], req)
    ensures Wellformed(req) && RunOk(After(events[..i]).db.runs[req.runId])
    ensures Finishes(req) ==> Terminal(Written(After(events[..i]).db.runs[req.runId], req).status)
  {
    EveryReachableState(events[..i]);
    assert events[..i + 1][..i] == events[..i];
    WrittenEvolves(After(events[..i]).db.runs[req.runId], req);
  }

  lemma WinnersExclude(before: Run, first: Request, later: Run, second: Request)
    requires Wellformed(first) && Guard(before, first) && RunOk(before)
    requires Evolves(Written(before, first), later) && RunOk(later) && Guard(later, second)
    requires Wellformed(second)
    ensures first.ClaimReq? ==> !second.ClaimReq? && !second.StuckReq?
    ensures Finishes(first) ==> second.AcknowledgeReq? && !first.StuckReq?
    ensures !first.AcknowledgeReq?
  {
    WrittenEvolves(before, first);
  }

  /** Two writes that both match a run, in this order: after a claim neither another
      claim nor the STUCK sweep can match; after a terminal write nothing can but the
      acknowledgement of a cancellation. So whichever of claim and STUCK commits first
      makes the other match zero rows, and a run ends at most once. */
  lemma AtMostOneWinner(events: seq<Event>, i: nat, k: nat, first: Request, second: Request)
    requires i < k && WinsAt(events, i, first) && WinsAt(events, k, second) && first.runId == second.runId
    ensures first.ClaimReq? ==> !second.ClaimReq? && !second.StuckReq?
    ensures Finishes(first) ==> second.AcknowledgeReq? && !first.StuckReq?
    ensures !first.AcknowledgeReq?
  {
    var id := first.runId;
    var before, later := After(events[..i]).db.runs[id], After(events[..k]).db.runs[id];
    WinnerIsWritten(events, i, first);
    assert Evolves(Written(before, first), later) by {
      assert events[..k][..i + 1] == events[..i + 1];
      RunEvolves(events[..k], i + 1, id);
    }
    assert RunOk(later) && Wellformed(second) by { EveryReachableState(events[..k]); }
    WinnersExclude(before, first, later, second);
  }

  /** A winning write leaves the row its request asks for, whatever happened since the read. */
  lemma WinnerShows(events: seq<Event>, k: nat, req: Request)
    requires WinsAt(events, k, req)
    ensures req.runId in After(events[..k]).db.runs && req.runId in After(events[..k + 1]).db.runs
    ensures Effects.Shows(After(events[..k]).db.runs[req.runId], req, After(events[..k + 1]).db.runs[req.runId])
  {
    WinnerIsWritten(events, k, req);
    Effects.WrittenShows(After(events[..k]).db.runs[req.runId], req);
  }

  /** The last event ends the run: it is the winning write of a request that asks for that. */
  lemma LastEventEnds(events: seq<Event>, id: nat) returns (req: Request)
    requires events != [] && id in After(events).db.runs && Effects.Ended(After(events).db.runs[id])
    requires id in After(events[..|events| - 1]).db.runs ==> !Effects.Ended(After(events[..|events| - 1]).db.runs[id])
    ensures WinsAt(events, |events| - 1, req) && req.runId == id
    ensures Effects.EndsWith(req, After(events).db.runs[id].status, After(events).db.runs[id].finishedAt)
  {
    var m := |events| - 1;
    var s := After(events[..m]);
    EveryReachableState(events[..m]);
    assert events[m].Finish? && events[m].ticket in s.inFlight && s.inFlight[events[m].ticket].runId == id
           && Wins(s.db, s.inFlight[events[m].ticket]) by {
      if !events[m].Finish? {
        OnlyFinishEnds(s, events[m], id);
      }
    }
    req := s.inFlight[events[m].ticket];
    assert After(events).db.runs[id] == Written(s.db.runs[id], req);
    EndsAsAsked(s.db.runs[id], req);
  }

  lemma EndsAsAsked(run: Run, req: Request)
    requires Wellformed(req) && Guard(run, req) && !Effects.Ended(run) && Effects.Ended(Written(run, req))
    ensures Effects.EndsWith(req, Written(run, req).status, Written(run, req).finishedAt)
  {
    Effects.WrittenShows(run, req);
  }

  lemma OnlyFinishEnds(s: State, e: Event, id: nat)
    requires Inv(s) && !e.Finish? && id in Apply(s, e).db.runs && Effects.Ended(Apply(s, e).db.runs[id])
    ensures id in s.db.runs && s.db.runs[id] == Apply(s, e).db.runs[id]
  {
    if e.CreateWrites? {
      CreationAddsPending(s, e);
    } else if e.JobDeleted? {
    } else {
      QuietEventKeepsRuns(s, e);
    }
  }

  /** Over every history: a run that has ended has the status and the finish that one winning
      completion, cancel, timeout or STUCK mark asked for. */
  lemma {:induction false} EndedAsItsWinnerAsked(events: seq<Event>, id: nat) returns (k: nat, req: Request)
    requires id in After(events).db.runs && Effects.Ended(After(events).db.runs[id])
    ensures WinsAt(events, k, req) && req.runId == id
    ensures Effects.EndsWith(req, After(events).db.runs[id].status, After(events).db.runs[id].finishedAt)
  {
    var m := |events| - 1;
    if id in After(events[..m]).db.runs && Effects.Ended(After(events[..m]).db.runs[id]) {
      k, req := EndedAsItsWinnerAsked(events[..m], id);
      EveryReachableState(events[..m]);
      StepEvolves(After(events[..m]), events[m], id);
      assert events[..m][..k] == events[..k];
    } else {
      k := m;
      req := LastEventEnds(events, id);
    }
  }

  // ---------------------------------------------------------------- JOB_FAILED

  ghost predicate OutcomeOf(runs: map<nat, Run>, jobId: nat, id: nat) {
    id in runs && runs[id].jobId == jobId &&
    (runs[id].status == SUCCESS || runs[id].status == WARNING || runs[id].status == FAILED)
  }

  /** The latest run of the job that ended SUCCESS, WARNING or FAILED ended FAILED. */
  ghost predicate LastOutcomeFailed(runs: map<nat, Run>, jobId: nat) {
    exists id: nat :: OutcomeOf(runs, jobId, id) && runs[id].status == FAILED &&
                      forall k: nat | OutcomeOf(runs, jobId, k) :: k <= id
  }

  function FailedKey(jobId: nat): Alerts.Key { JobAlert(jobId, Alerts.JobFailed) }

  ghost predicate FailsJob(s: State, e: Event, jobId: nat) {
    e.Finish? && e.ticket in s.inFlight && Wins(s.db, s.inFlight[e.ticket]) &&
    s.inFlight[e.ticket].CompleteReq? && s.inFlight[e.ticket].completion.status == FAILED &&
    s.db.runs[s.inFlight[e.ticket].runId].jobId == jobId
  }

  ghost predicate TouchesFailure(s: State, e: Event, jobId: nat) {
    e.AlertByAdmin? && e.alertId < |s.db.alerts| && s.db.alerts[e.alertId].Matches(FailedKey(jobId))
  }

  /** An admin acknowledged or resolved the job's ACTIVE JOB_FAILED alert, and no run of
      the job has failed since. */
  ghost predicate AdminTouched(events: seq<Event>, jobId: nat) {
    events != [] &&
    var prefix := events[..|events| - 1];
    var e := events[|events| - 1];
    TouchesFailure(After(prefix), e, jobId) || (!FailsJob(After(prefix), e, jobId) && AdminTouched(prefix, jobId))
  }

  lemma SameOutcomes(runs: map<nat, Run>, after: map<nat, Run>, jobId: nat)
    requires forall id: nat :: OutcomeOf(after, jobId, id) <==> OutcomeOf(runs, jobId, id)
    requires forall id: nat | OutcomeOf(runs, jobId, id) && OutcomeOf(after, jobId, id) ::
               after[id].status == runs[id].status
    ensures LastOutcomeFailed(after, jobId) <==> LastOutcomeFailed(runs, jobId)
  {
    if LastOutcomeFailed(runs, jobId) {
      var id: nat :| OutcomeOf(runs, jobId, id) && runs[id].status == FAILED &&
                forall k: nat | OutcomeOf(runs, jobId, k) :: k <= id;
      assert OutcomeOf(after, jobId, id);
    }
    if LastOutcomeFailed(after, jobId) {
      var id: nat :| OutcomeOf(after, jobId, id) && after[id].status == FAILED &&
                forall k: nat | OutcomeOf(after, jobId, k) :: k <= id;
      assert OutcomeOf(runs, jobId, id);
    }
  }

  /** A completion decides the job's latest outcome, because the run it ends is the newest. */
  lemma CompletionDecidesOutcome(runs: map<nat, Run>, id: nat, written: Run)
    requires OnlyNewestActive(runs) && id in runs && !Terminal(runs[id].status)
    requires written.jobId == runs[id].jobId
    requires written.status == SUCCESS || written.status == WARNING || written.status == FAILED
    ensures LastOutcomeFailed(runs[id := written], written.jobId) <==> written.status == FAILED
  {
    var after := runs[id := written];
    assert OutcomeOf(after, written.jobId, id);
    assert forall k: nat | OutcomeOf(after, written.jobId, k) :: k <= id;
  }

  lemma CommitMovesJobFailed(db: Store, req: Request, jobId: nat)
    requires OnlyNewestActive(db.runs) && Alerts.Valid(db.alerts) && Wellformed(req) && Wins(db, req)
    ensures
      var after := Commit(db, req).0;
      var mine := req.CompleteReq? && req.completion.status != CANCELLED && db.runs[req.runId].jobId == jobId;
      if mine then
        && (LastOutcomeFailed(after.runs, jobId) <==> req.completion.status == FAILED)
        && (Alerts.HasActive(after.alerts, FailedKey(jobId)) <==> req.completion.status == FAILED)
      else
        && (LastOutcomeFailed(after.runs, jobId) <==> LastOutcomeFailed(db.runs, jobId))
        && (Alerts.HasActive(after.alerts, FailedKey(jobId)) <==> Alerts.HasActive(db.alerts, FailedKey(jobId)))
  {
    var run := db.runs[req.runId];
    var written := Written(run, req);
    WrittenEvolves(run, req);
    if req.CompleteReq? && req.completion.status != CANCELLED && run.jobId == jobId {
      CompletionDecidesOutcome(db.runs, req.runId, written);
    } else {
      SameOutcomes(db.runs, db.runs[req.runId := written], jobId);
    }
    match req
    case CompleteReq(_, completion, _, _, _) =>
      Alerts.RaiseEffect(db.alerts, FailedKey(run.jobId), Alerts.Critical);
      Alerts.ResolveEffect(db.alerts, FailedKey(run.jobId), None);
    case TimeoutReq(_, _, _) => Alerts.RaiseEffect(db.alerts, JobAlert(run.jobId, Alerts.JobTimeout), Alerts.Critical);
    case StuckReq(_, _) => Alerts.RaiseEffect(db.alerts, JobAlert(run.jobId, Alerts.JobStuckPending), Alerts.Critical);
    case _ =>
  }

  ghost predicate Deletes(s: State, e: Event, jobId: nat) {
    e == JobDeleted(jobId) && jobId in s.db.jobs && !HasActiveRun(s.db, jobId)
  }

  lemma CreationKeepsOutcome(s: State, e: Event, jobId: nat)
    requires Inv(s) && e.CreateWrites?
    ensures LastOutcomeFailed(Apply(s, e).db.runs, jobId) <==> LastOutcomeFailed(s.db.runs, jobId)
  {
    var after := Apply(s, e).db.runs;
    CreationAddsPending(s, e);
    assert forall id: nat :: OutcomeOf(after, jobId, id) <==> OutcomeOf(s.db.runs, jobId, id);
    SameOutcomes(s.db.runs, after, jobId);
  }

  lemma DeletionMovesOutcome(db: Store, deleted: nat, jobId: nat)
    ensures LastOutcomeFailed(DeleteJob(db, deleted).runs, jobId) <==>
            LastOutcomeFailed(db.runs, jobId) && !(deleted == jobId && jobId in db.jobs && !HasActiveRun(db, jobId))
  {
    var after := DeleteJob(db, deleted).runs;
    if deleted == jobId && jobId in db.jobs && !HasActiveRun(db, jobId) {
      assert forall id: nat :: !OutcomeOf(after, jobId, id);
    } else {
      assert forall id: nat :: OutcomeOf(after, jobId, id) <==> OutcomeOf(db.runs, jobId, id);
      SameOutcomes(db.runs, after, jobId);
    }
  }

  lemma OtherEventsKeepOutcome(s: State, e: Event, jobId: nat)
    requires Inv(s) && !e.Finish?
    ensures LastOutcomeFailed(Apply(s, e).db.runs, jobId) <==>
            LastOutcomeFailed(s.db.runs, jobId) && !Deletes(s, e, jobId)
  {
    if e.CreateWrites? {
      CreationKeepsOutcome(s, e, jobId);
    } else if e.JobDeleted? {
      DeletionMovesOutcome(s.db, e.jobId, jobId);
    } else {
      QuietEventKeepsRuns(s, e);
    }
  }

  lemma OtherEventsKeepAlert(s: State, e: Event, jobId: nat)
    requires Inv(s) && !e.Finish?
    ensures Alerts.HasActive(Apply(s, e).db.alerts, FailedKey(jobId)) <==>
            Alerts.HasActive(s.db.alerts, FailedKey(jobId)) && !TouchesFailure(s, e, jobId) && !Deletes(s, e, jobId)
  {
    match e
    case AlertByAdmin(id, action) => Alerts.AdminEffect(s.db.alerts, id, action);
    case AlertRaised(key, severity) => Alerts.RaiseEffect(s.db.alerts, key, severity);
    case AlertResolved(key, note) => Alerts.ResolveEffect(s.db.alerts, key, note);
    case JobDeleted(deleted) => Alerts.DeleteParentEffect(s.db.alerts, Alerts.BackupJob, deleted);
    case _ =>
  }

  lemma StepMovesJobFailed(s: State, e: Event, jobId: nat, touched: bool)
    requires Inv(s)
    requires Alerts.HasActive(s.db.alerts, FailedKey(jobId)) <==> LastOutcomeFailed(s.db.runs, jobId) && !touched
    ensures Alerts.HasActive(Apply(s, e).db.alerts, FailedKey(jobId)) <==>
            LastOutcomeFailed(Apply(s, e).db.runs, jobId)
            && !(TouchesFailure(s, e, jobId) || (!FailsJob(s, e, jobId) && touched))
  {
    if e.Finish? {
      if e.ticket in s.inFlight && Wins(s.db, s.inFlight[e.ticket]) {
        CommitMovesJobFailed(s.db, s.inFlight[e.ticket], jobId);
      }
    } else {
      OtherEventsKeepOutcome(s, e, jobId);
      OtherEventsKeepAlert(s, e, jobId);
    }
  }

  /** Over every history: JOB_FAILED is ACTIVE for a job iff its latest SUCCESS, WARNING or
      FAILED run ended FAILED and no admin has acknowledged or resolved the alert since.
      Cancelled, timed-out and stuck runs never disturb this. */
  lemma {:induction false} JobFailedTracksLastOutcome(events: seq<Event>, jobId: nat)
    ensures Alerts.HasActive(After(events).db.alerts, FailedKey(jobId)) <==>
            LastOutcomeFailed(After(events).db.runs, jobId) && !AdminTouched(events, jobId)
  {
    if events != [] {
      var prefix := events[..|events| - 1];
      JobFailedTracksLastOutcome(prefix, jobId);
      EveryReachableState(prefix);
      StepMovesJobFailed(After(prefix), events[|events| - 1], jobId, AdminTouched(prefix, jobId));
    }
  }

  // ---------------------------------------------------------------- durations

  const COMPLETION := Completion(SUCCESS, Some(4_000_000), map[])

  function StartedAt(instant: int): Patch { Patch(Set(RUNNING), Set(instant), Unset, map[]) }

  /** A run is created and a PATCH starts it at second 9 of the agent's clock. */
  const STARTED: seq<Event> :=
    [JobCreated(true, SCHEDULE, None, 30)] + [CreateChecks(0, 0, Scheduler, 0)] + [CreateWrites(0, 0)]
    + [Start(1, PatchCall(0, StartedAt(9_000_000)), 0)] + [Finish(1)]

  /** Its completion is read, and a second PATCH moves the start to second 4 meanwhile. */
  const RESTARTED: seq<Event> :=
    STARTED + [Start(2, CompleteCall(0, COMPLETION), 0)]
    + [Start(3, PatchCall(0, StartedAt(4_000_000)), 0)] + [Finish(3)]

  lemma CreatedRun()
    ensures After(STARTED[..3]).db.runs == map[0 := NewRun(Creation(0, Scheduler, Some(0)), 0)]
    ensures After(STARTED[..3]).inFlight == map[]
  {
    var es: seq<Event> := [JobCreated(true, SCHEDULE, None, 30)];
    assert es[..0] == [];
    assert After(es) == State(Store(map[0 := Job(true, SCHEDULE, None, 30, None)], map[], 1, 0, []), map[], map[]);
    Extend(es, CreateChecks(0, 0, Scheduler, 0));
    var checked := es + [CreateChecks(0, 0, Scheduler, 0)];
    assert After(checked).creating == map[0 := Creation(0, Scheduler, Some(0))] && After(checked).db == After(es).db;
    assert !HasActiveRun(After(checked).db, 0);
    Extend(checked, CreateWrites(0, 0));
    assert STARTED[..3] == checked + [CreateWrites(0, 0)];
  }

  /** A PATCH sent while a run is active, with nothing in between. */
  lemma PatchApplies(events: seq<Event>, ticket: nat, patch: Patch)
    requires ticket !in After(events).inFlight && 0 in After(events).db.runs && After(events).db.runs[0].Active()
    requires patch.status == Set(RUNNING) && patch.details == map[]
    ensures
      var after := After(events + [Start(ticket, PatchCall(0, patch), 0)] + [Finish(ticket)]);
      && after.inFlight == After(events).inFlight && 0 in after.db.runs
      && after.db.runs[0] == Written(After(events).db.runs[0], PatchReq(0, patch, After(events).db.runs[0].status))
  {
    var read := events + [Start(ticket, PatchCall(0, patch), 0)];
    Extend(events, Start(ticket, PatchCall(0, patch), 0));
    assert After(read).inFlight[ticket] == PatchReq(0, patch, After(events).db.runs[0].status);
    Extend(read, Finish(ticket));
  }

  lemma StartedRun()
    ensures 0 in After(STARTED).db.runs && After(STARTED).inFlight == map[]
    ensures After(STARTED).db.runs[0] ==
            NewRun(Creation(0, Scheduler, Some(0)), 0).(status := RUNNING, startedAt := Some(9_000_000))
  {
    CreatedRun();
    PatchApplies(STARTED[..3], 1, StartedAt(9_000_000));
    assert STARTED == STARTED[..3] + [Start(1, PatchCall(0, StartedAt(9_000_000)), 0)] + [Finish(1)];
  }

  lemma RestartedRun()
    ensures 0 in After(RESTARTED).db.runs && 2 in After(RESTARTED).inFlight
    ensures After(RESTARTED).db.runs[0].status == RUNNING && After(RESTARTED).db.runs[0].startedAt == Some(4_000_000)
    ensures After(RESTARTED).inFlight[2] == CompleteReq(0, COMPLETION, RUNNING, Some(9_000_000), 4_000_000)
  {
    StartedRun();
    var read := STARTED + [Start(2, CompleteCall(0, COMPLETION), 0)];
    Extend(STARTED, Start(2, CompleteCall(0, COMPLETION), 0));
    PatchApplies(read, 3, StartedAt(4_000_000));
    assert RESTARTED == read + [Start(3, PatchCall(0, StartedAt(4_000_000)), 0)] + [Finish(3)];
  }

  lemma LateCompletion(db: Store)
    requires 0 in db.runs && db.runs[0].status == RUNNING && db.runs[0].startedAt == Some(4_000_000)
    ensures
      var late := Commit(db, CompleteReq(0, COMPLETION, RUNNING, Some(9_000_000), 4_000_000));
      late.1 == Accepted && 0 in late.0.runs && late.0.runs[0].durationSeconds == Some(-5)
    ensures
      var prompt := Atomic(db, CompleteCall(0, COMPLETION), 0);
      0 in prompt.0.runs && prompt.0.runs[0].durationSeconds == Some(0)
  {
  }

  /** In this history the completion writes a duration that is stale and negative, where an
      uninterrupted completion would write 0. */
  lemma DurationCanBeStaleOrNegative()
    ensures
      var s := After(RESTARTED);
      && 2 in s.inFlight && Commit(s.db, s.inFlight[2]).1 == Accepted
      && 0 in After(RESTARTED + [Finish(2)]).db.runs
      && After(RESTARTED + [Finish(2)]).db.runs[0].durationSeconds == Some(-5)
      && 0 in Atomic(s.db, CompleteCall(0, COMPLETION), 0).0.runs
      && Atomic(s.db, CompleteCall(0, COMPLETION), 0).0.runs[0].durationSeconds == Some(0)
  {
    RestartedRun();
    LateCompletion(After(RESTARTED).db);
    Extend(RESTARTED, Finish(2));
  }
}
