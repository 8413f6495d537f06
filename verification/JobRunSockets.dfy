/** Subscribers of one job run (app/routers/job_run_ws.py), PATCH broadcasts, and the one
    handler that ends the run and then broadcasts and closes (app/routers/job_runs.py),
    interleaved at every lock region of app/core/ws_manager.py.

    Assumed: the run a subscriber reads is the committed one, a send fails only on a
    socket that is no longer open, and the handler that ended the run is not killed. */
module JobRunSockets {
  import opened Wrappers
  import opened JobRuns
  import ConnectionManager

  /** Where a subscriber's handler stands. */
  datatype Pc =
    | Opening      // accepted, not yet registered with the manager
    | Registered   // registered, run not yet read
    | Live         // read an active run, snapshot not yet sent
    | Looping      // in the receive loop
    | Ending       // read a terminal run, still registered
    | Replying     // deregistered, about to send the terminal state
    | Gone

  /** `tookLoop` records the live branch; `dropped` that the client went away;
      `closed` that the server closed the socket, `byWriter` that close_all did so. */
  datatype Sub = Sub(
    pc: Pc, seen: Status, tookLoop: bool, dropped: bool, closed: bool, byWriter: bool, inbox: seq<Status>)
  {
    predicate Open() { !dropped && !closed }
    function Deliver(m: Status): Sub { this.(inbox := inbox + [m]) }
  }

  datatype Phase = Committed | Sending | Popping | Closing | Done

  /** A broadcast, and for the terminal writer the close_all after it. `copied` is the
      registry as the broadcast copied it. */
  datatype Sender = Sender(message: Status, phase: Phase, copied: set<nat>, rest: set<nat>, dead: set<nat>)

  datatype State = State(
    run: Status, registered: set<nat>, subs: map<nat, Sub>, senders: map<nat, Sender>, writer: Option<nat>)

  const INITIAL := State(PENDING, {}, map[], map[], None)

  datatype Event =
    | Accept(id: nat)
    | Connect(id: nat)
    | ReadRun(id: nat)
    | SendInitial(id: nat)
    | LoopEnds(id: nat)
    | EndDisconnect(id: nat)
    | Reply(id: nat)
    | ClientDrops(id: nat)
    | PatchCommits(status: Status)
    | PatchBroadcasts(sender: nat, message: Status)
    | RunEnds(sender: nat, status: Status)
    | Snapshot(sender: nat)
    | SendTo(sender: nat, id: nat)
    | Prune(sender: nat)
    | Pop(sender: nat)
    | Close(sender: nat, id: nat)
    | CloseDone(sender: nat)

  function At(s: State, id: nat, sub: Sub): State { s.(subs := s.subs[id := sub]) }

  function With(s: State, k: nat, sender: Sender): State { s.(senders := s.senders[k := sender]) }

  function SubStep(s: State, id: nat, e: Event): State
    requires id in s.subs
  {
    var sub := s.subs[id];
    match (e, sub.pc)
    case (Connect(_), Opening) => At(s, id, sub.(pc := Registered)).(registered := s.registered + {id})
    case (ReadRun(_), Registered) =>
      if Terminal(s.run) then At(s, id, sub.(pc := Ending, seen := s.run))
      else At(s, id, sub.(pc := Live, seen := s.run, tookLoop := true))
    case (SendInitial(_), Live) =>
      if sub.Open() then At(s, id, sub.Deliver(sub.seen).(pc := Looping))
      else At(s, id, sub.(pc := Gone)).(registered := s.registered - {id})
    case (LoopEnds(_), Looping) =>
      if sub.Open() then s else At(s, id, sub.(pc := Gone)).(registered := s.registered - {id})
    case (EndDisconnect(_), Ending) => At(s, id, sub.(pc := Replying)).(registered := s.registered - {id})
    case (Reply(_), Replying) =>
      if sub.Open() then At(s, id, sub.Deliver(sub.seen).(pc := Gone, closed := true)) else At(s, id, sub.(pc := Gone))
    case (ClientDrops(_), _) => At(s, id, sub.(dropped := true))
    case _ => s
  }

  /** close_all reaches a socket: closing one that is already closed raises, and is ignored. */
  function ClosedByWriter(sub: Sub): Sub { if sub.closed then sub else sub.(closed := true, byWriter := true) }

  function SenderStep(s: State, k: nat, e: Event): State
    requires k in s.senders
  {
    var sender := s.senders[k];
    match (e, sender.phase)
    case (Snapshot(_), Committed) => With(s, k, sender.(phase := Sending, copied := s.registered, rest := s.registered))
    case (SendTo(_, id), Sending) =>
      if id !in sender.rest || id !in s.subs then s
      else if s.subs[id].Open() then
        With(At(s, id, s.subs[id].Deliver(sender.message)), k, sender.(rest := sender.rest - {id}))
      else With(s, k, sender.(rest := sender.rest - {id}, dead := sender.dead + {id}))
    case (Prune(_), Sending) =>
      if sender.rest != {} then s
      else
        var next := if s.writer == Some(k) then Popping else Done;
        With(s, k, sender.(phase := next)).(registered := s.registered - sender.dead)
    case (Pop(_), Popping) => With(s, k, sender.(phase := Closing, rest := s.registered)).(registered := {})
    case (Close(_, id), Closing) =>
      if id !in sender.rest || id !in s.subs then s
      else With(At(s, id, ClosedByWriter(s.subs[id])), k, sender.(rest := sender.rest - {id}))
    case (CloseDone(_), Closing) => if sender.rest == {} then With(s, k, sender.(phase := Done)) else s
    case _ => s
  }

  function Apply(s: State, e: Event): State {
    match e
    case Accept(id) =>
      if id in s.subs then s else At(s, id, Sub(Opening, PENDING, false, false, false, false, []))
    case PatchCommits(status) => if Terminal(s.run) || Terminal(status) then s else s.(run := status)
    case PatchBroadcasts(k, message) =>
      if k in s.senders || Terminal(message) then s else With(s, k, Sender(message, Committed, {}, {}, {}))
    case RunEnds(k, status) =>
      if k in s.senders || Terminal(s.run) || !Terminal(status) then s
      else With(s.(run := status, writer := Some(k)), k, Sender(status, Committed, {}, {}, {}))
    case Snapshot(k) => if k in s.senders then SenderStep(s, k, e) else s
    case SendTo(k, _) => if k in s.senders then SenderStep(s, k, e) else s
    case Prune(k) => if k in s.senders then SenderStep(s, k, e) else s
    case Pop(k) => if k in s.senders then SenderStep(s, k, e) else s
    case Close(k, _) => if k in s.senders then SenderStep(s, k, e) else s
    case CloseDone(k) => if k in s.senders then SenderStep(s, k, e) else s
    case _ => if e.id in s.subs then SubStep(s, e.id, e) else s
  }

  function After(events: seq<Event>): State {
    if events == [] then INITIAL else Apply(After(events[..|events| - 1]), events[|events| - 1])
  }

  // ---------------------------------------------------------------- the invariant

  ghost predicate SenderOk(s: State, k: nat)
    requires k in s.senders
  {
    var sender := s.senders[k];
    && (s.writer != Some(k) ==> !Terminal(sender.message) && sender.phase != Popping && sender.phase != Closing)
    && (sender.phase == Done || sender.phase == Popping ==> sender.rest == {})
    && sender.copied <= s.subs.Keys
    && (sender.phase == Committed ==> sender.copied == {})
    && (sender.phase == Sending ==> sender.rest <= sender.copied)
    && forall id | id in sender.dead :: id in s.subs && !s.subs[id].Open()
  }

  ghost predicate SendersOk(s: State) {
    && s.registered <= s.subs.Keys
    && (s.writer.Some? <==> Terminal(s.run))
    && (s.writer.Some? ==> s.writer.value in s.senders && s.senders[s.writer.value].message == s.run)
    && forall k | k in s.senders :: SenderOk(s, k)
  }

  function Writer(s: State): Sender
    requires s.writer.Some? && s.writer.value in s.senders
  {
    s.senders[s.writer.value]
  }

  /** An open socket whose handler waits, or is about to wait, for updates. */
  predicate Waiting(sub: Sub) { (sub.pc == Live || sub.pc == Looping) && sub.Open() }

  ghost predicate SubOk(s: State, sub: Sub, id: nat)
    requires SendersOk(s)
  {
    && (forall i :: 0 <= i < |sub.inbox| && Terminal(sub.inbox[i]) ==> sub.inbox[i] == s.run)
    && (sub.pc == Ending || sub.pc == Replying ==> Terminal(s.run) && sub.seen == s.run)
    && (sub.pc == Live ==> !Terminal(sub.seen))
    && (sub.pc == Live || sub.pc == Looping ==> sub.tookLoop)
    && (sub.pc == Opening || sub.pc == Registered || sub.pc == Ending || sub.pc == Replying ==> !sub.tookLoop)
    && (sub.pc == Gone ==> !sub.Open())
    && (sub.byWriter ==> sub.closed)
    // as long as the run is active, every waiting socket is registered
    && (!Terminal(s.run) && sub.Open() && (sub.pc == Registered || Waiting(sub)) ==> id in s.registered)
    && (Terminal(s.run) ==>
          var w := Writer(s);
          // once it is over, the writer's close_all is still to come for it ...
          && (Waiting(sub) ==> w.phase != Done && (if w.phase == Closing then id in w.rest else id in s.registered))
          // ... and before closing it the writer has sent it the final state
          && (sub.tookLoop && !sub.dropped ==>
                s.run in sub.inbox || w.phase == Committed || (w.phase == Sending && id in w.rest))
          && (sub.byWriter ==> w.phase == Closing || w.phase == Done)
          // a copied subscriber is sent the final state; any other has it only from its own
          // handler, which then closes the socket itself
          && (id in w.copied && !sub.dropped ==> s.run in sub.inbox || (w.phase == Sending && id in w.rest))
          && (s.run in sub.inbox && id !in w.copied ==> sub.closed && !sub.byWriter)
          && (sub.closed && !sub.byWriter ==> s.run in sub.inbox))
    && (!Terminal(s.run) ==> !sub.closed)
  }

  ghost predicate Inv(s: State) {
    SendersOk(s) && forall id | id in s.subs :: SubOk(s, s.subs[id], id)
  }

  /** A subscriber the step did not move, in a state where at most other sockets were
      deregistered. */
  lemma BystanderStaysOk(s: State, s': State, id: nat)
    requires SendersOk(s) && SendersOk(s') && id in s.subs && SubOk(s, s.subs[id], id)
    requires id in s'.subs && s'.subs[id] == s.subs[id]
    requires s'.run == s.run && s'.writer == s.writer
    requires id in s.registered && s.subs[id].Open() ==> id in s'.registered
    requires s.writer.Some? ==> Writer(s').phase == Writer(s).phase && Writer(s').copied == Writer(s).copied
    requires s.writer.Some? && id in Writer(s).rest ==> id in Writer(s').rest
    ensures SubOk(s', s'.subs[id], id)
  {
  }

  lemma SubStepKeepsSenders(s: State, id: nat, e: Event)
    requires SendersOk(s) && id in s.subs
    ensures SendersOk(SubStep(s, id, e))
  {
  }

  lemma SubRegistersOk(s: State, id: nat, e: Event)
    requires SendersOk(s) && id in s.subs && SubOk(s, s.subs[id], id) && SendersOk(SubStep(s, id, e))
    requires e.Connect? || e.ReadRun? || e.EndDisconnect? || e.ClientDrops?
    ensures SubOk(SubStep(s, id, e), SubStep(s, id, e).subs[id], id)
  {
  }

  lemma SubSendsOk(s: State, id: nat, e: Event)
    requires SendersOk(s) && id in s.subs && SubOk(s, s.subs[id], id) && SendersOk(SubStep(s, id, e))
    requires e.SendInitial? || e.Reply?
    ensures SubOk(SubStep(s, id, e), SubStep(s, id, e).subs[id], id)
  {
  }

  lemma SubRestsOk(s: State, id: nat, e: Event)
    requires SendersOk(s) && id in s.subs && SubOk(s, s.subs[id], id) && SendersOk(SubStep(s, id, e))
    requires !(e.Connect? || e.ReadRun? || e.EndDisconnect? || e.ClientDrops? || e.SendInitial? || e.Reply?)
    ensures SubOk(SubStep(s, id, e), SubStep(s, id, e).subs[id], id)
  {
  }

  lemma SubStepKeepsOwn(s: State, id: nat, e: Event)
    requires SendersOk(s) && id in s.subs && SubOk(s, s.subs[id], id) && SendersOk(SubStep(s, id, e))
    ensures SubOk(SubStep(s, id, e), SubStep(s, id, e).subs[id], id)
  {
    if e.Connect? || e.ReadRun? || e.EndDisconnect? || e.ClientDrops? {
      SubRegistersOk(s, id, e);
    } else if e.SendInitial? || e.Reply? {
      SubSendsOk(s, id, e);
    } else {
      SubRestsOk(s, id, e);
    }
  }

  lemma SubStepKeepsInv(s: State, id: nat, e: Event)
    requires Inv(s) && id in s.subs
    ensures Inv(SubStep(s, id, e))
  {
    var s' := SubStep(s, id, e);
    SubStepKeepsSenders(s, id, e);
    forall k | k in s'.subs
      ensures SubOk(s', s'.subs[k], k)
    {
      if k == id {
        SubStepKeepsOwn(s, id, e);
      } else {
        BystanderStaysOk(s, s', k);
      }
    }
  }

  lemma SendKeepsSenders(s: State, k: nat, e: Event)
    requires SendersOk(s) && k in s.senders && e.SendTo?
    ensures SendersOk(SenderStep(s, k, e))
  {
    var s' := SenderStep(s, k, e);
    forall j | j in s'.senders
      ensures SenderOk(s', j)
    {
      assert SenderOk(s, j);
    }
  }

  lemma CloseKeepsSenders(s: State, k: nat, e: Event)
    requires SendersOk(s) && k in s.senders && e.Close?
    ensures SendersOk(SenderStep(s, k, e))
  {
    var s' := SenderStep(s, k, e);
    forall j | j in s'.senders
      ensures SenderOk(s', j)
    {
      assert SenderOk(s, j);
    }
  }

  lemma MoveKeepsSenders(s: State, k: nat, e: Event)
    requires SendersOk(s) && k in s.senders && !e.SendTo? && !e.Close?
    ensures SendersOk(SenderStep(s, k, e))
  {
    var s' := SenderStep(s, k, e);
    forall j | j in s'.senders
      ensures SenderOk(s', j)
    {
      assert SenderOk(s, j);
    }
  }

  lemma SenderStepKeepsSenders(s: State, k: nat, e: Event)
    requires Inv(s) && k in s.senders
    ensures SendersOk(SenderStep(s, k, e))
  {
    if e.SendTo? {
      SendKeepsSenders(s, k, e);
    } else if e.Close? {
      CloseKeepsSenders(s, k, e);
    } else {
      MoveKeepsSenders(s, k, e);
    }
  }

  lemma WriterReachesSub(s: State, k: nat, e: Event)
    requires Inv(s) && k in s.senders && s.writer == Some(k) && e.SendTo? && e.id in s.subs
    requires SendersOk(SenderStep(s, k, e))
    ensures SubOk(SenderStep(s, k, e), SenderStep(s, k, e).subs[e.id], e.id)
  {
    assert SubOk(s, s.subs[e.id], e.id);
  }

  lemma WriterSendKeepsSub(s: State, k: nat, e: Event, id: nat)
    requires Inv(s) && k in s.senders && s.writer == Some(k) && id in s.subs && e.SendTo?
    requires SendersOk(SenderStep(s, k, e))
    ensures SubOk(SenderStep(s, k, e), SenderStep(s, k, e).subs[id], id)
  {
    if id == e.id {
      WriterReachesSub(s, k, e);
    } else {
      BystanderStaysOk(s, SenderStep(s, k, e), id);
    }
  }

  lemma WriterCloseKeepsSub(s: State, k: nat, e: Event, id: nat)
    requires Inv(s) && k in s.senders && s.writer == Some(k) && id in s.subs && e.Close?
    requires SendersOk(SenderStep(s, k, e))
    ensures SubOk(SenderStep(s, k, e), SenderStep(s, k, e).subs[id], id)
  {
    assert SubOk(s, s.subs[id], id);
  }

  /** Its steps on the registry. */
  lemma WriterMovesRegistry(s: State, k: nat, e: Event, id: nat)
    requires Inv(s) && k in s.senders && s.writer == Some(k) && id in s.subs && !e.SendTo? && !e.Close?
    requires SendersOk(SenderStep(s, k, e))
    ensures SubOk(SenderStep(s, k, e), SenderStep(s, k, e).subs[id], id)
  {
    assert SubOk(s, s.subs[id], id);
  }

  /** A broadcast of a PATCH delivers a status that is not terminal, and closes nothing. */
  lemma BroadcastReachesSub(s: State, k: nat, e: Event)
    requires Inv(s) && k in s.senders && s.writer != Some(k) && e.SendTo? && e.id in s.subs
    requires SendersOk(SenderStep(s, k, e))
    ensures SubOk(SenderStep(s, k, e), SenderStep(s, k, e).subs[e.id], e.id)
  {
    assert SubOk(s, s.subs[e.id], e.id);
    assert SenderOk(s, k);
  }

  lemma BroadcastSendKeepsSub(s: State, k: nat, e: Event, id: nat)
    requires Inv(s) && k in s.senders && s.writer != Some(k) && id in s.subs && e.SendTo?
    requires SendersOk(SenderStep(s, k, e))
    ensures SubOk(SenderStep(s, k, e), SenderStep(s, k, e).subs[id], id)
  {
    if id == e.id {
      BroadcastReachesSub(s, k, e);
    } else {
      BystanderStaysOk(s, SenderStep(s, k, e), id);
    }
  }

  lemma BroadcastRegistryKeepsSub(s: State, k: nat, e: Event, id: nat)
    requires Inv(s) && k in s.senders && s.writer != Some(k) && id in s.subs && !e.SendTo?
    requires SendersOk(SenderStep(s, k, e))
    ensures SubOk(SenderStep(s, k, e), SenderStep(s, k, e).subs[id], id)
  {
    assert SenderOk(s, k);
    BystanderStaysOk(s, SenderStep(s, k, e), id);
  }

  lemma SenderStepKeepsInv(s: State, k: nat, e: Event)
    requires Inv(s) && k in s.senders
    ensures Inv(SenderStep(s, k, e))
  {
    var s' := SenderStep(s, k, e);
    SenderStepKeepsSenders(s, k, e);
    forall id | id in s'.subs
      ensures SubOk(s', s'.subs[id], id)
    {
      if s.writer == Some(k) {
        if e.SendTo? {
          WriterSendKeepsSub(s, k, e, id);
        } else if e.Close? {
          WriterCloseKeepsSub(s, k, e, id);
        } else {
          WriterMovesRegistry(s, k, e, id);
        }
      } else {
        if e.SendTo? {
          BroadcastSendKeepsSub(s, k, e, id);
        } else {
          BroadcastRegistryKeepsSub(s, k, e, id);
        }
      }
    }
  }

  lemma RunEndsKeepsInv(s: State, k: nat, status: Status)
    requires Inv(s)
    ensures Inv(Apply(s, RunEnds(k, status)))
  {
    var s' := Apply(s, RunEnds(k, status));
    if s' != s {
      assert SendersOk(s');
      forall id | id in s'.subs
        ensures SubOk(s', s'.subs[id], id)
      {
        assert SubOk(s, s.subs[id], id);
        assert status !in s.subs[id].inbox;
      }
    }
  }

  predicate BySender(e: Event) {
    e.Snapshot? || e.SendTo? || e.Prune? || e.Pop? || e.Close? || e.CloseDone?
  }

  lemma AcceptKeepsInv(s: State, id: nat)
    requires Inv(s)
    ensures Inv(Apply(s, Accept(id)))
  {
    if id !in s.subs {
      var s' := Apply(s, Accept(id));
      AcceptKeepsSenders(s, id);
      NewcomerOk(s', id);
      forall k | k in s.subs
        ensures SubOk(s', s'.subs[k], k)
      {
        BystanderStaysOk(s, s', k);
      }
    }
  }

  lemma AcceptKeepsSenders(s: State, id: nat)
    requires SendersOk(s) && id !in s.subs
    ensures SendersOk(Apply(s, Accept(id)))
    ensures s.writer.Some? ==> id !in Writer(s).copied
  {
  }

  lemma NewcomerOk(s: State, id: nat)
    requires SendersOk(s) && id in s.subs && s.subs[id] == Sub(Opening, PENDING, false, false, false, false, [])
    requires s.writer.Some? ==> id !in Writer(s).copied
    ensures SubOk(s, s.subs[id], id)
  {
  }

  lemma PatchKeepsInv(s: State, e: Event)
    requires Inv(s) && (e.PatchCommits? || e.PatchBroadcasts?)
    ensures Inv(Apply(s, e))
  {
    var s' := Apply(s, e);
    assert SendersOk(s');
    forall k | k in s.subs
      ensures SubOk(s', s'.subs[k], k)
    {
      assert SubOk(s, s.subs[k], k);
    }
  }

  lemma StepKeepsInv(s: State, e: Event)
    requires Inv(s)
    ensures Inv(Apply(s, e))
  {
    if e.Accept? {
      AcceptKeepsInv(s, e.id);
    } else if e.PatchCommits? || e.PatchBroadcasts? {
      PatchKeepsInv(s, e);
    } else if e.RunEnds? {
      RunEndsKeepsInv(s, e.sender, e.status);
    } else if BySender(e) {
      if e.sender in s.senders {
        SenderStepKeepsInv(s, e.sender, e);
      }
    } else if e.id in s.subs {
      SubStepKeepsInv(s, e.id, e);
    }
  }

  lemma {:induction false} EveryReachableState(events: seq<Event>)
    ensures Inv(After(events)) && SendersOk(After(events))
  {
    if events != [] {
      EveryReachableState(events[..|events| - 1]);
      StepKeepsInv(After(events[..|events| - 1]), events[|events| - 1]);
    }
  }

  // ---------------------------------------------------------------- the registry

  /** The locked region of the manager that an event is. */
  function RegionOf(s: State, e: Event): ConnectionManager.Region {
    match e
    case Connect(id) =>
      if id in s.subs && s.subs[id].pc == Opening then ConnectionManager.Add(id) else ConnectionManager.Copy
    case SendInitial(id) =>
      if id in s.subs && s.subs[id].pc == Live && !s.subs[id].Open() then ConnectionManager.Remove(id)
      else ConnectionManager.Copy
    case LoopEnds(id) =>
      if id in s.subs && s.subs[id].pc == Looping && !s.subs[id].Open() then ConnectionManager.Remove(id)
      else ConnectionManager.Copy
    case EndDisconnect(id) =>
      if id in s.subs && s.subs[id].pc == Ending then ConnectionManager.Remove(id) else ConnectionManager.Copy
    case Prune(k) =>
      if k in s.senders && s.senders[k].phase == Sending && s.senders[k].rest == {}
      then ConnectionManager.Drop(s.senders[k].dead) else ConnectionManager.Copy
    case Pop(k) =>
      if k in s.senders && s.senders[k].phase == Popping then ConnectionManager.Clear else ConnectionManager.Copy
    case _ => ConnectionManager.Copy
  }

  /** Every step changes the registry as one locked region of the manager does, and a
      broadcast or close_all takes exactly what its region returns. */
  lemma StepsAreLockRegions(s: State, e: Event)
    ensures Apply(s, e).registered == ConnectionManager.Registry(s.registered, RegionOf(s, e))
    ensures e.Snapshot? && e.sender in s.senders && s.senders[e.sender].phase == Committed ==>
              Apply(s, e).senders[e.sender].copied == s.registered && Apply(s, e).senders[e.sender].rest == s.registered
    ensures e.Pop? && RegionOf(s, e).Clear? ==> Apply(s, e).senders[e.sender].rest == s.registered
  {
  }

  // ---------------------------------------------------------------- what subscribers can rely on

  /** Registering before reading is enough: while the run is over, every subscriber still
      waiting is one the writer's close_all has yet to reach, and when close_all has
      ended none is waiting. */
  lemma NoneLeftWaiting(events: seq<Event>, id: nat)
    requires id in After(events).subs && Waiting(After(events).subs[id]) && Terminal(After(events).run)
    ensures
      var s := After(events);
      && s.writer.Some? && s.writer.value in s.senders && Writer(s).phase != Done
      && (if Writer(s).phase == Closing then id in Writer(s).rest else id in s.registered)
  {
    EveryReachableState(events);
    var s := After(events);
    assert SubOk(s, s.subs[id], id);
  }

  /** A subscriber that took the live branch and whose client stayed has been sent the
      final status before the writer starts closing sockets. */
  lemma LiveSubscribersSeeFinalStatus(events: seq<Event>, id: nat)
    requires
      var s := After(events);
      && id in s.subs && s.subs[id].tookLoop && !s.subs[id].dropped && s.writer.Some? && s.writer.value in s.senders
      && (Writer(s).phase == Popping || Writer(s).phase == Closing || Writer(s).phase == Done)
    ensures After(events).run in After(events).subs[id].inbox && Terminal(After(events).run)
    ensures forall m :: m in After(events).subs[id].inbox && Terminal(m) ==> m == After(events).run
  {
    EveryReachableState(events);
    var s := After(events);
    assert SubOk(s, s.subs[id], id);
  }

  lemma Extend(events: seq<Event>, e: Event)
    ensures After(events + [e]) == Apply(After(events), e)
  {
    assert (events + [e])[..|events|] == events;
  }

  /** A subscriber registers after the writer copied the registry for its broadcast. */
  lemma RegisteredTooLate() returns (es: seq<Event>)
    ensures After(es) == State(SUCCESS, {0}, map[0 := Sub(Registered, PENDING, false, false, false, false, [])],
                               map[0 := Sender(SUCCESS, Popping, {}, {}, {})], Some(0))
  {
    es := [];
    Extend(es, Accept(0)); es := es + [Accept(0)];
    Extend(es, RunEnds(0, SUCCESS)); es := es + [RunEnds(0, SUCCESS)];
    var sub := Sub(Opening, PENDING, false, false, false, false, []);
    assert After(es) == State(SUCCESS, {}, map[0 := sub], map[0 := Sender(SUCCESS, Committed, {}, {}, {})], Some(0));
    Extend(es, Snapshot(0)); es := es + [Snapshot(0)];
    Extend(es, Connect(0)); es := es + [Connect(0)];
    Extend(es, Prune(0)); es := es + [Prune(0)];
  }

  /** It reads the ended run, and close_all empties the registry before it deregisters. */
  lemma PoppedWhileEnding() returns (es: seq<Event>)
    ensures After(es) == State(SUCCESS, {}, map[0 := Sub(Ending, SUCCESS, false, false, false, false, [])],
                               map[0 := Sender(SUCCESS, Closing, {}, {0}, {})], Some(0))
  {
    es := RegisteredTooLate();
    Extend(es, ReadRun(0)); es := es + [ReadRun(0)];
    Extend(es, Pop(0)); es := es + [Pop(0)];
  }

  /** The terminal branch gives no such promise. A subscriber that registers after the
      writer's broadcast copied the registry, but before close_all empties it, is closed
      by the writer before it can send the terminal state it read: its client, which
      never went away, gets a normal close and no status at all. */
  lemma TerminalBranchCanMissFinalStatus()
    ensures exists events :: 0 in After(events).subs &&
              var sub := After(events).subs[0];
              sub.pc == Gone && !sub.dropped && sub.closed && Terminal(After(events).run) && sub.inbox == []
  {
    var es := PoppedWhileEnding();
    var ending := Sub(Ending, SUCCESS, false, false, false, false, []);
    Extend(es, Close(0, 0)); es := es + [Close(0, 0)];
    assert After(es).subs == map[0 := ending.(closed := true, byWriter := true)];
    Extend(es, EndDisconnect(0)); es := es + [EndDisconnect(0)];
    Extend(es, Reply(0)); es := es + [Reply(0)];
    assert After(es).subs[0] == ending.(pc := Gone, closed := true, byWriter := true);
  }

  /** Exactly that race misses it: of the subscribers that ended with their client present,
      those without the final status are the ones close_all closed and the writer's
      broadcast had not copied. */
  lemma ExactlyThatRaceMissesIt(events: seq<Event>, id: nat)
    requires
      var s := After(events);
      id in s.subs && s.subs[id].pc == Gone && !s.subs[id].dropped
    ensures
      var s := After(events);
      && s.writer.Some? && s.writer.value in s.senders
      && (s.run !in s.subs[id].inbox <==> s.subs[id].byWriter && id !in Writer(s).copied)
      && (s.run !in s.subs[id].inbox ==>
            !s.subs[id].tookLoop && (Writer(s).phase == Closing || Writer(s).phase == Done))
  {
    EveryReachableState(events);
    var s := After(events);
    assert SubOk(s, s.subs[id], id);
  }
}
