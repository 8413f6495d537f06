/** Two more histories of the job-run machine in which a handler does something its comments or
    its docstring do not suggest. */
module JobRunExamples {
  import opened Wrappers
  import opened JobRuns
  import opened JobRunMachine
  import JobRunHistories
  import JobRunStore
  import Alerts

  // ---------------------------------------------------------------- a PATCH without fields

  const NOTHING := Patch(Unset, Unset, Unset, map[])

  /** A PATCH without fields has read the RUNNING run when the run's completion commits. */
  const FINISHED_MEANWHILE: seq<Event> :=
    JobRunHistories.STARTED + [Start(2, PatchCall(0, NOTHING), 0)]
    + [Start(3, CompleteCall(0, JobRunHistories.COMPLETION), 0)] + [Finish(3)]

  lemma Finishing(s: State)
    requires 0 in s.db.runs && s.db.runs[0].status == RUNNING && s.inFlight == map[]
    ensures
      var read := Apply(Apply(s, Start(2, PatchCall(0, NOTHING), 0)),
                        Start(3, CompleteCall(0, JobRunHistories.COMPLETION), 0));
      var t := Apply(read, Finish(3));
      && 0 in t.db.runs && t.db.runs[0].status == SUCCESS
      && 2 in t.inFlight && t.inFlight[2] == PatchReq(0, NOTHING, RUNNING)
  {
  }

  /** It is accepted all the same, where an uninterrupted PATCH would answer 409. */
  lemma EmptyPatchAcceptedOnFinishedRun()
    ensures
      var s := After(FINISHED_MEANWHILE);
      && 0 in s.db.runs && Terminal(s.db.runs[0].status) && 2 in s.inFlight
      && Commit(s.db, s.inFlight[2]).1 == Accepted && Atomic(s.db, PatchCall(0, NOTHING), 0).1 == Rejected(409)
  {
    JobRunHistories.StartedRun();
    Finishing(After(JobRunHistories.STARTED));
    var read := JobRunHistories.STARTED + [Start(2, PatchCall(0, NOTHING), 0)];
    Extend(JobRunHistories.STARTED, Start(2, PatchCall(0, NOTHING), 0));
    var completing := read + [Start(3, CompleteCall(0, JobRunHistories.COMPLETION), 0)];
    Extend(read, Start(3, CompleteCall(0, JobRunHistories.COMPLETION), 0));
    Extend(completing, Finish(3));
  }

  // ---------------------------------------------------------------- a STUCK run that is not counted

  /** A manual run of a job without grace is created at instant 0. */
  const UNDELIVERED: seq<Event> :=
    [JobCreated(true, SCHEDULE, None, 0)] + [CreateChecks(0, 0, Manual, 0)] + [CreateWrites(0, 0)]

  /** It is marked STUCK at instant 1, and a second manual run is created. */
  const SECOND_RUN: seq<Event> :=
    UNDELIVERED + [Start(1, StuckSelect(0), 1)] + [Finish(1)] + [CreateChecks(0, 0, Manual, 1)] + [CreateWrites(0, 1)]

  lemma UndeliveredRun()
    ensures
      var s := After(UNDELIVERED);
      && s.db == Store(map[0 := Job(true, SCHEDULE, None, 0, None)],
                       map[0 := NewRun(Creation(0, Manual, None), 0)], 1, 1, [])
      && s.inFlight == map[] && s.creating == map[]
  {
    var es: seq<Event> := [JobCreated(true, SCHEDULE, None, 0)];
    assert es[..0] == [];
    assert After(es) == State(Store(map[0 := Job(true, SCHEDULE, None, 0, None)], map[], 1, 0, []), map[], map[]);
    Extend(es, CreateChecks(0, 0, Manual, 0));
    var checked := es + [CreateChecks(0, 0, Manual, 0)];
    assert After(checked) == State(After(es).db, map[], map[0 := Creation(0, Manual, None)]);
    assert !HasActiveRun(After(checked).db, 0);
    Extend(checked, CreateWrites(0, 0));
  }

  ghost predicate StuckOnce(s: State) {
    && s.db.jobs.Keys == {0} && s.db.jobs[0].enabled && s.db.jobs[0].mode == SCHEDULE
    && s.db.jobs[0].pendingGraceMinutes == 0
    && s.db.runs.Keys == {0} && s.db.runs[0].status == STUCK && s.db.nextRunId == 1
    && s.creating == map[] && Alerts.HasActive(s.db.alerts, JobAlert(0, Alerts.JobStuckPending))
  }

  lemma MarkedStuck(s: State)
    requires s.db == Store(map[0 := Job(true, SCHEDULE, None, 0, None)],
                           map[0 := NewRun(Creation(0, Manual, None), 0)], 1, 1, [])
    requires s.inFlight == map[] && s.creating == map[]
    ensures StuckOnce(Apply(Apply(s, Start(1, StuckSelect(0), 1)), Finish(1)))
  {
    ReadsUndelivered(s);
    EndsStuck(s.db);
    FinishIsCommit(Apply(s, Start(1, StuckSelect(0), 1)), 1);
  }

  lemma ReadsUndelivered(s: State)
    requires s.db == Store(map[0 := Job(true, SCHEDULE, None, 0, None)],
                           map[0 := NewRun(Creation(0, Manual, None), 0)], 1, 1, [])
    requires s.inFlight == map[]
    ensures Apply(s, Start(1, StuckSelect(0), 1)) == s.(inFlight := map[1 := StuckReq(0, 1)])
  {
    assert Undelivered(s.db, s.db.runs[0], 1);
    assert Read(s.db, StuckSelect(0), 1) == Proceed(StuckReq(0, 1));
  }

  lemma FinishIsCommit(s: State, ticket: nat)
    requires ticket in s.inFlight
    ensures Apply(s, Finish(ticket)) == s.(db := Commit(s.db, s.inFlight[ticket]).0, inFlight := s.inFlight - {ticket})
  {
  }

  lemma EndsStuck(db: Store)
    requires db == Store(map[0 := Job(true, SCHEDULE, None, 0, None)],
                         map[0 := NewRun(Creation(0, Manual, None), 0)], 1, 1, [])
    ensures
      var after := Commit(db, StuckReq(0, 1)).0;
      && after.jobs == map[0 := Job(true, SCHEDULE, None, 0, Some(1))] && after.nextRunId == 1
      && after.runs.Keys == {0} && after.runs[0].status == STUCK
      && Alerts.HasActive(after.alerts, JobAlert(0, Alerts.JobStuckPending))
  {
    JobRunStore.EndRunIsCommit(db, JobRunStore.StuckPending, 0, 1);
    Alerts.RaiseEffect([], JobAlert(0, Alerts.JobStuckPending), Alerts.Critical);
  }

  ghost predicate SecondUndelivered(db: Store) {
    && 0 in db.jobs && db.jobs[0].pendingGraceMinutes == 0 && db.runs.Keys == {0, 1} && db.runs[0].status == STUCK
    && db.runs[1] == NewRun(Creation(0, Manual, None), 1)
    && Alerts.HasActive(db.alerts, JobAlert(0, Alerts.JobStuckPending))
  }

  lemma CreatedAgain(s: State)
    requires StuckOnce(s)
    ensures SecondUndelivered(Apply(Apply(s, CreateChecks(0, 0, Manual, 1)), CreateWrites(0, 1)).db)
  {
    var checked := Apply(s, CreateChecks(0, 0, Manual, 1));
    assert checked.creating == map[0 := Creation(0, Manual, None)] && checked.db == s.db;
    assert !HasActiveRun(checked.db, 0);
  }

  lemma MarksOneCountsNone(db: Store)
    requires SecondUndelivered(db)
    ensures JobRunStore.Selected(db, JobRunStore.StuckPending, 2) == {1}
    ensures JobRunStore.Unalerted(db, JobRunStore.StuckPending, {1}) == {}
  {
  }

  /** The sweep at instant 2 marks one run and returns 0. */
  lemma StuckRunIsNotCounted()
    ensures
      var db := After(SECOND_RUN).db;
      && JobRunStore.Selected(db, JobRunStore.StuckPending, 2) == {1}
      && JobRunStore.Unalerted(db, JobRunStore.StuckPending, {1}) == {}
  {
    UndeliveredRun();
    MarkedStuck(After(UNDELIVERED));
    var read := UNDELIVERED + [Start(1, StuckSelect(0), 1)];
    Extend(UNDELIVERED, Start(1, StuckSelect(0), 1));
    var stuck := read + [Finish(1)];
    Extend(read, Finish(1));
    CreatedAgain(After(stuck));
    var checked := stuck + [CreateChecks(0, 0, Manual, 1)];
    Extend(stuck, CreateChecks(0, 0, Manual, 1));
    Extend(checked, CreateWrites(0, 1));
    MarksOneCountsNone(After(SECOND_RUN).db);
  }
}
