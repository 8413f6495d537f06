/** How a cancellation reaches the agent: the job poll of app/routers/agents.py offers
    one cancelled run per job, and the agent's next PATCH or completion of it acknowledges
    the cancellation (_auto_acknowledge_cancelled in app/routers/job_runs.py). */
module CancelDelivery {
  import opened Wrappers
  import opened JobRuns
  import opened JobRunMachine

  /** The runs the poll may offer for a job. */
  ghost function Unacknowledged(db: Store, jobId: nat): set<nat> {
    set id | id in db.runs && db.runs[id].jobId == jobId && db.runs[id].status == CANCELLED
             && db.runs[id].cancelAcknowledgedAt == None
  }

  ghost predicate IsHighest(ids: set<nat>, id: nat) {
    id in ids && forall k :: k in ids ==> k <= id
  }

  /** The rows of the poll's query: (backup_job_id, id), highest id first. */
  ghost predicate CancelQuery(db: Store, jobIds: set<nat>, rows: seq<(nat, nat)>) {
    && (forall i :: 0 <= i < |rows| ==> rows[i].0 in jobIds && rows[i].1 in Unacknowledged(db, rows[i].0))
    && (forall j, id :: j in jobIds && id in Unacknowledged(db, j) ==> (j, id) in rows)
    && (forall i, k :: 0 <= i < k < |rows| ==> rows[i].1 > rows[k].1)
  }

  /** The dictionary filled with setdefault holds, for each job, its highest-id
      cancelled and unacknowledged run, and no entry for a job without one. */
  method OfferCancellations(ghost db: Store, ghost jobIds: set<nat>, rows: seq<(nat, nat)>)
    returns (offered: map<nat, nat>)
    requires CancelQuery(db, jobIds, rows)
    ensures forall j :: j in jobIds ==> (j in offered <==> Unacknowledged(db, j) != {})
    ensures forall j :: j in offered ==> j in jobIds && IsHighest(Unacknowledged(db, j), offered[j])
  {
    offered := map[];
    for i := 0 to |rows|
      invariant forall j :: j in offered ==> exists k :: 0 <= k < i && rows[k] == (j, offered[j])
      invariant forall k :: 0 <= k < i ==> rows[k].0 in offered && offered[rows[k].0] >= rows[k].1
    {
      var (jobId, runId) := rows[i];
      if jobId !in offered {
        offered := offered[jobId := runId];
      }
    }
    forall j | j in offered
      ensures IsHighest(Unacknowledged(db, j), offered[j])
    {
      forall id | id in Unacknowledged(db, j)
        ensures id <= offered[j]
      {
        var k :| 0 <= k < |rows| && rows[k] == (j, id);
      }
    }
    forall j | j in jobIds && Unacknowledged(db, j) != {}
      ensures j in offered
    {
      var id :| id in Unacknowledged(db, j);
      var k :| 0 <= k < |rows| && rows[k] == (j, id);
    }
  }

  /** Any PATCH, and any completion the schema accepts, counts as the agent's reaction. */
  ghost predicate Answers(call: Call, id: nat) {
    call.runId == id && (call.PatchCall? || (call.CompleteCall? && Completes(call.completion.status)))
  }

  lemma AnswerAcknowledgesThatRunOnly(db: Store, jobId: nat, call: Call, now: int)
    requires call.runId in Unacknowledged(db, jobId) && Answers(call, call.runId)
    ensures Atomic(db, call, now).1 == Rejected(409)
    ensures Atomic(db, call, now).0 ==
            db.(runs := db.runs[call.runId := db.runs[call.runId].(cancelAcknowledgedAt := Some(now))])
    ensures Unacknowledged(Atomic(db, call, now).0, jobId) == Unacknowledged(db, jobId) - {call.runId}
    ensures forall j :: j != jobId ==> Unacknowledged(Atomic(db, call, now).0, j) == Unacknowledged(db, j)
  {
    var after := db.(runs := db.runs[call.runId := db.runs[call.runId].(cancelAcknowledgedAt := Some(now))]);
    assert Read(db, call, now) == Proceed(AcknowledgeReq(call.runId, now));
    assert Commit(db, AcknowledgeReq(call.runId, now)) == (after, Rejected(409));
  }

  // ---------------------------------------------------------------- over histories

  /** A winning write that cancels a run of the job, and one that acknowledges a
      cancellation of it. */
  predicate CancelsRun(db: Store, req: Request, jobId: nat) {
    && Wins(db, req) && db.runs[req.runId].jobId == jobId
    && (req.CancelReq? || (req.CompleteReq? && req.completion.status == CANCELLED))
  }

  predicate AcknowledgesRun(db: Store, req: Request, jobId: nat) {
    Wins(db, req) && db.runs[req.runId].jobId == jobId && req.AcknowledgeReq?
  }

  lemma CommitMovesUnacknowledged(db: Store, req: Request, jobId: nat)
    requires Wellformed(req) && forall id | id in db.runs :: RunOk(db.runs[id])
    ensures
      var before, after := Unacknowledged(db, jobId), Unacknowledged(Commit(db, req).0, jobId);
      if CancelsRun(db, req, jobId) then after == before + {req.runId} && req.runId !in before
      else if AcknowledgesRun(db, req, jobId) then after == before - {req.runId} && req.runId in before
      else after == before
  {
    if Wins(db, req) {
      var written := Written(db.runs[req.runId], req);
      WrittenEvolves(db.runs[req.runId], req);
      assert Commit(db, req).0.runs == db.runs[req.runId := written];
    }
  }

  predicate CancelsAt(s: State, e: Event, jobId: nat) {
    e.Finish? && e.ticket in s.inFlight && CancelsRun(s.db, s.inFlight[e.ticket], jobId)
  }

  predicate AcknowledgesAt(s: State, e: Event, jobId: nat) {
    e.Finish? && e.ticket in s.inFlight && AcknowledgesRun(s.db, s.inFlight[e.ticket], jobId)
  }

  lemma SameRunsSameUnacknowledged(a: Store, b: Store, jobId: nat)
    requires forall id | id in a.runs && id in b.runs :: a.runs[id] == b.runs[id]
    requires forall id | id in a.runs && id !in b.runs :: a.runs[id].jobId != jobId
    requires forall id | id in b.runs && id !in a.runs :: b.runs[id].status != CANCELLED
    ensures Unacknowledged(a, jobId) == Unacknowledged(b, jobId)
  {
  }

  /** One event adds one unacknowledged cancellation to a job, removes one, or leaves them. */
  lemma StepMovesUnacknowledged(s: State, e: Event, jobId: nat)
    requires Inv(s) && e != JobDeleted(jobId)
    ensures |Unacknowledged(Apply(s, e).db, jobId)| ==
            |Unacknowledged(s.db, jobId)| + (if CancelsAt(s, e, jobId) then 1 else 0)
            - (if AcknowledgesAt(s, e, jobId) then 1 else 0)
  {
    if e.Finish? {
      if e.ticket in s.inFlight {
        CommitMovesUnacknowledged(s.db, s.inFlight[e.ticket], jobId);
      }
    } else {
      OtherEventsKeepUnacknowledged(s, e, jobId);
    }
  }

  lemma OtherEventsKeepUnacknowledged(s: State, e: Event, jobId: nat)
    requires Inv(s) && e != JobDeleted(jobId) && !e.Finish?
    ensures Unacknowledged(Apply(s, e).db, jobId) == Unacknowledged(s.db, jobId)
  {
    if e.CreateWrites? {
      CreationKeepsUnacknowledged(s, e, jobId);
    } else if e.JobDeleted? {
      DeletionKeepsUnacknowledged(s.db, e.jobId, jobId);
    } else {
      QuietEventKeepsRuns(s, e);
    }
  }

  lemma CreationKeepsUnacknowledged(s: State, e: Event, jobId: nat)
    requires Inv(s) && e.CreateWrites?
    ensures Unacknowledged(Apply(s, e).db, jobId) == Unacknowledged(s.db, jobId)
  {
    CreationAddsPending(s, e);
    SameRunsSameUnacknowledged(s.db, Apply(s, e).db, jobId);
  }

  lemma DeletionKeepsUnacknowledged(db: Store, deleted: nat, jobId: nat)
    requires deleted != jobId
    ensures Unacknowledged(DeleteJob(db, deleted), jobId) == Unacknowledged(db, jobId)
  {
    SameRunsSameUnacknowledged(db, DeleteJob(db, deleted), jobId);
  }

  /** The cancellations and the acknowledgements of a job from event n on. */
  ghost function Cancellations(events: seq<Event>, n: nat, jobId: nat): nat {
    if |events| <= n then 0
    else
      var m := |events| - 1;
      Cancellations(events[..m], n, jobId) + if CancelsAt(After(events[..m]), events[m], jobId) then 1 else 0
  }

  ghost function Acknowledgements(events: seq<Event>, n: nat, jobId: nat): nat {
    if |events| <= n then 0
    else
      var m := |events| - 1;
      Acknowledgements(events[..m], n, jobId) + if AcknowledgesAt(After(events[..m]), events[m], jobId) then 1 else 0
  }

  lemma LastStep(events: seq<Event>, jobId: nat)
    requires events != [] && events[|events| - 1] != JobDeleted(jobId)
    ensures
      var m := |events| - 1;
      |Unacknowledged(After(events).db, jobId)| ==
      |Unacknowledged(After(events[..m]).db, jobId)|
        + (if CancelsAt(After(events[..m]), events[m], jobId) then 1 else 0)
        - (if AcknowledgesAt(After(events[..m]), events[m], jobId) then 1 else 0)
  {
    EveryReachableState(events[..|events| - 1]);
    StepMovesUnacknowledged(After(events[..|events| - 1]), events[|events| - 1], jobId);
  }

  /** Cancellations are neither lost nor acknowledged twice: over every history that does
      not delete the job, those left are those there were, plus the new ones, minus the
      acknowledgements. */
  lemma {:induction false} Conservation(events: seq<Event>, n: nat, jobId: nat)
    requires n <= |events| && forall k: nat | n <= k < |events| :: events[k] != JobDeleted(jobId)
    ensures |Unacknowledged(After(events).db, jobId)| + Acknowledgements(events, n, jobId) ==
            |Unacknowledged(After(events[..n]).db, jobId)| + Cancellations(events, n, jobId)
    decreases |events|
  {
    if n == |events| {
      assert events[..n] == events;
    } else {
      var m := |events| - 1;
      assert events[..m][..n] == events[..n];
      assert forall k: nat :: n <= k < m ==> events[..m][k] == events[k];
      Conservation(events[..m], n, jobId);
      LastStep(events, jobId);
    }
  }

  /** Events k and k + 1 are a round: the agent answers the run its poll offers for the job. */
  ghost predicate RoundAt(events: seq<Event>, k: nat, jobId: nat) {
    && k + 1 < |events| && events[k].Start? && events[k + 1] == Finish(events[k].ticket)
    && var s := After(events[..k]);
    && events[k].ticket !in s.inFlight && IsHighest(Unacknowledged(s.db, jobId), events[k].call.runId)
    && Answers(events[k].call, events[k].call.runId)
  }

  /** Each round is one acknowledgement, of the run that was offered. */
  lemma RoundAcknowledges(events: seq<Event>, k: nat, jobId: nat)
    requires RoundAt(events, k, jobId)
    ensures AcknowledgesAt(After(events[..k + 1]), events[k + 1], jobId)
    ensures Unacknowledged(After(events[..k + 2]).db, jobId) ==
            Unacknowledged(After(events[..k]).db, jobId) - {events[k].call.runId}
  {
    var s := After(events[..k]);
    var id := events[k].call.runId;
    assert events[..k + 1][..k] == events[..k] && events[..k + 2][..k + 1] == events[..k + 1];
    assert After(events[..k + 1]) == Apply(s, events[k]);
    assert Read(s.db, events[k].call, events[k].now) == Proceed(AcknowledgeReq(id, events[k].now));
    assert After(events[..k + 1]).inFlight[events[k].ticket] == AcknowledgeReq(id, events[k].now);
    EveryReachableState(events[..k + 1]);
    CommitMovesUnacknowledged(s.db, AcknowledgeReq(id, events[k].now), jobId);
  }

  lemma {:induction false} AcknowledgementsGrow(events: seq<Event>, n: nat, m: nat, jobId: nat)
    requires m <= |events|
    ensures Acknowledgements(events[..m], n, jobId) <= Acknowledgements(events, n, jobId)
    decreases |events|
  {
    if m == |events| {
      assert events[..m] == events;
    } else if n < |events| {
      var front := events[..|events| - 1];
      assert front[..m] == events[..m];
      AcknowledgementsGrow(front, n, m, jobId);
    }
  }

  /** The rounds starting at ks, one after the other, all from event n on. */
  ghost predicate Rounds(events: seq<Event>, n: nat, ks: seq<nat>, jobId: nat) {
    && (forall i: nat | i < |ks| :: n <= ks[i] && RoundAt(events, ks[i], jobId))
    && (forall i: nat, j: nat | i < j < |ks| :: ks[i] + 1 < ks[j])
  }

  lemma RoundInPrefix(events: seq<Event>, m: nat, k: nat, jobId: nat)
    requires RoundAt(events, k, jobId) && k + 1 < m <= |events|
    ensures RoundAt(events[..m], k, jobId)
  {
    assert events[..m][..k] == events[..k];
  }

  lemma RoundCounts(events: seq<Event>, n: nat, k: nat, jobId: nat)
    requires n <= k && RoundAt(events, k, jobId)
    ensures Acknowledgements(events[..k], n, jobId) + 1 <= Acknowledgements(events[..k + 2], n, jobId)
  {
    RoundAcknowledges(events, k, jobId);
    AcknowledgementsGrow(events[..k + 1], n, k, jobId);
    assert events[..k + 1][..k] == events[..k] && events[..k + 2][..k + 1] == events[..k + 1];
  }

  /** Each round is an acknowledgement of its own: there are at least as many
      acknowledgements as rounds. */
  lemma {:induction false} RoundsAreAcknowledgements(events: seq<Event>, n: nat, ks: seq<nat>, jobId: nat)
    requires Rounds(events, n, ks, jobId)
    ensures |ks| <= Acknowledgements(events, n, jobId)
    decreases |ks|
  {
    if ks != [] {
      var last := |ks| - 1;
      var k := ks[last];
      forall i: nat | i < last
        ensures RoundAt(events[..k], ks[i], jobId)
      {
        RoundInPrefix(events, k, ks[i], jobId);
      }
      RoundsAreAcknowledgements(events[..k], n, ks[..last], jobId);
      RoundCounts(events, n, k, jobId);
      AcknowledgementsGrow(events, n, k + 2, jobId);
    }
  }

  /** So delivery drains: with no new cancellation there can be no more poll-and-answer
      rounds than there were cancellations, and as many of them leave nothing to offer.
      Acknowledgements by whatever other call count the same. */
  lemma RoundsDrain(events: seq<Event>, n: nat, ks: seq<nat>, jobId: nat)
    requires n <= |events| && forall k: nat | n <= k < |events| :: events[k] != JobDeleted(jobId)
    requires Cancellations(events, n, jobId) == 0 && Rounds(events, n, ks, jobId)
    ensures
      var pending := Unacknowledged(After(events[..n]).db, jobId);
      && |ks| <= Acknowledgements(events, n, jobId) <= |pending|
      && (|ks| == |pending| ==> Unacknowledged(After(events).db, jobId) == {})
      && (Acknowledgements(events, n, jobId) == |pending| <==> Unacknowledged(After(events).db, jobId) == {})
  {
    Conservation(events, n, jobId);
    RoundsAreAcknowledgements(events, n, ks, jobId);
  }
}
