/** The browser's socket hook, frontend/src/hooks/useJobRunSocket.ts: one run of its
    effect, from mount to unmount. */
module SocketHook {
  import opened Wrappers
  import opened JobRuns
  import JobRunSockets

  /** What reaches the hook. A message without a parsable status is None; a close event of
      a socket that is no longer the current one is stale. */
  datatype Event =
    | Opened
    | Message(status: Option<Status>)
    | Closed(code: nat, stale: bool)
    | TimerFired
    | Unmounted

  datatype View = View(stopped: bool, cached: Option<Status>, attempt: nat, timer: bool)

  const MOUNTED := View(false, None, 0, false)

  predicate FinalCode(code: nat) { code == 1000 || code == 4401 || code == 4404 }

  function Step(v: View, e: Event): View {
    match e
    case Opened => if v.stopped then v else v.(attempt := 0)
    case Message(status) =>
      if v.stopped || status == None then v
      else if Terminal(status.value) then v.(cached := status, stopped := true, timer := false)
      else v.(cached := status)
    case Closed(code, stale) =>
      if stale then v
      else if FinalCode(code) then v.(stopped := true)
      else if v.stopped then v
      else v.(timer := true)
    case TimerFired => if v.timer then v.(timer := false, attempt := v.attempt + 1) else v
    case Unmounted => v.(stopped := true, timer := false)
  }

  function After(v: View, events: seq<Event>): View {
    if events == [] then v else Step(After(v, events[..|events| - 1]), events[|events| - 1])
  }

  /** What each event does to the hook, as the user sees it. Only 1000, 4401 and 4404 end the
      connection for good; after any other close of the current socket a reconnect is
      scheduled, and its timer counts one more attempt. */
  predicate Handled(before: View, e: Event, after: View) {
    match e
    case Opened =>
      after.stopped == before.stopped && after.cached == before.cached && after.timer == before.timer
      && after.attempt == if before.stopped then before.attempt else 0
    case Message(status) =>
      if before.stopped || status == None then after == before
      else
        var ended := status.value != PENDING && status.value != RUNNING;
        after.cached == status && after.stopped == ended && after.attempt == before.attempt
        && after.timer == (before.timer && !ended)
    case Closed(code, stale) =>
      && after.cached == before.cached && after.attempt == before.attempt
      && after.stopped == (before.stopped || (!stale && (code == 1000 || code == 4401 || code == 4404)))
      && after.timer == (before.timer || (!stale && !after.stopped))
    case TimerFired =>
      after.stopped == before.stopped && after.cached == before.cached && !after.timer
      && after.attempt == before.attempt + if before.timer then 1 else 0
    case Unmounted =>
      after.stopped && !after.timer && after.cached == before.cached && after.attempt == before.attempt
  }

  lemma StepMeans(v: View, e: Event)
    ensures Handled(v, e, Step(v, e))
  {
  }

  class Hook {
    var stopped: bool
    var cached: Option<Status>
    var attempt: nat
    var timer: bool

    function State(): View
      reads this
    {
      View(stopped, cached, attempt, timer)
    }

    constructor ()
      ensures State() == MOUNTED
    {
      stopped, cached, attempt, timer := false, None, 0, false;
    }

    method OnOpen()
      modifies this
      ensures State() == Step(old(State()), Opened) && Handled(old(State()), Opened, State())
    {
      if stopped {
        return;
      }
      attempt := 0;
    }

    method OnMessage(parsed: Option<Status>)
      modifies this
      ensures State() == Step(old(State()), Message(parsed)) && Handled(old(State()), Message(parsed), State())
    {
      if stopped {
        return;
      }
      if parsed == None {
        return;
      }
      cached := parsed;
      if Terminal(parsed.value) {
        stopped := true;
        timer := false;
      }
    }

    method OnClose(code: nat, stale: bool)
      modifies this
      ensures State() == Step(old(State()), Closed(code, stale)) && Handled(old(State()), Closed(code, stale), State())
    {
      if stale {
        return;
      }
      if code == 1000 || code == 4401 || code == 4404 {
        stopped := true;
        return;
      }
      if stopped {
        return;
      }
      timer := true;
    }

    method OnTimer()
      requires timer
      modifies this
      ensures State() == Step(old(State()), TimerFired) && Handled(old(State()), TimerFired, State())
    {
      timer := false;
      attempt := attempt + 1;
    }
  }

  // ---------------------------------------------------------------- over every sequence of events

  predicate Stops(e: Event) {
    e.Unmounted? || (e.Closed? && !e.stale && FinalCode(e.code)) ||
    (e.Message? && e.status.Some? && Terminal(e.status.value))
  }

  /** The hook stops on the first terminal status, final close code or unmount, and on
      nothing else; from then on what it cached stays. */
  lemma {:induction false} StopsOnce(v: View, events: seq<Event>)
    requires v.cached.Some? && Terminal(v.cached.value) ==> v.stopped
    ensures After(v, events).stopped <==> v.stopped || exists i :: 0 <= i < |events| && Stops(events[i])
    ensures v.stopped ==> After(v, events).cached == v.cached
    ensures After(v, events).cached.Some? && Terminal(After(v, events).cached.value) ==> After(v, events).stopped
  {
    if events != [] {
      var n := |events| - 1;
      StopsOnce(v, events[..n]);
      assert events == events[..n] + [events[n]];
    }
  }

  lemma {:induction false} AfterSplits(v: View, first: seq<Event>, second: seq<Event>)
    ensures After(v, first + second) == After(After(v, first), second)
  {
    if second == [] {
      assert first + second == first;
    } else {
      var n := |second| - 1;
      AfterSplits(v, first, second[..n]);
      assert (first + second)[..|first + second| - 1] == first + second[..n];
    }
  }

  /** Once the cached status is terminal it never changes, whatever arrives later -- in
      particular a snapshot read before the run ended and delivered after it. */
  lemma TerminalCacheIsFinal(first: seq<Event>, second: seq<Event>)
    requires After(MOUNTED, first).cached.Some? && Terminal(After(MOUNTED, first).cached.value)
    ensures After(MOUNTED, first + second).cached == After(MOUNTED, first).cached
    ensures After(MOUNTED, first + second).stopped
  {
    AfterSplits(MOUNTED, first, second);
    StopsOnce(MOUNTED, first);
    StopsOnce(After(MOUNTED, first), second);
  }

  /** The statuses that reach the hook, in order. */
  function Statuses(events: seq<Event>): seq<Status> {
    if events == [] then []
    else
      var e := events[|events| - 1];
      if e.Message? && e.status.Some? then Statuses(events[..|events| - 1]) + [e.status.value]
      else Statuses(events[..|events| - 1])
  }

  /** Nothing but a terminal status ends the subscription. */
  predicate OnlyMessagesStop(events: seq<Event>) {
    forall i :: 0 <= i < |events| && Stops(events[i]) ==> events[i].Message?
  }

  lemma {:induction false} FinalStatusSticks(v: View, events: seq<Event>, final: Status)
    requires !v.stopped && OnlyMessagesStop(events)
    requires forall m :: m in Statuses(events) && Terminal(m) ==> m == final
    ensures After(v, events).stopped <==> exists m :: m in Statuses(events) && Terminal(m)
    ensures After(v, events).stopped ==> After(v, events).cached == Some(final)
  {
    if events != [] {
      var n := |events| - 1;
      assert forall m :: m in Statuses(events[..n]) ==> m in Statuses(events);
      FinalStatusSticks(v, events[..n], final);
      var e := events[n];
      assert Stops(e) ==> e.Message?;
      if e.Message? && e.status.Some? {
        assert Statuses(events) == Statuses(events[..n]) + [e.status.value];
        assert e.status.value in Statuses(events);
        assert forall m :: m in Statuses(events) ==> m in Statuses(events[..n]) || m == e.status.value;
      }
    }
  }

  /** End to end: in every interleaving, once the writer has begun to close sockets, a
      client whose last connection stayed and was served by the live branch shows the run's
      final status -- whatever the hook went through before that connection (messages,
      closes, reconnects), whatever else than a final close or an unmount comes between the
      statuses of the connection, and whatever follows them. */
  lemma ClientShowsFinalStatus(events: seq<JobRunSockets.Event>, id: nat, earlier: seq<Event>,
                              served: seq<Event>, rest: seq<Event>)
    requires
      var s := JobRunSockets.After(events);
      && id in s.subs && s.subs[id].tookLoop && !s.subs[id].dropped && s.writer.Some? && s.writer.value in s.senders
      && (JobRunSockets.Writer(s).phase == JobRunSockets.Closing || JobRunSockets.Writer(s).phase == JobRunSockets.Done)
      && Statuses(served) == s.subs[id].inbox
    requires !After(MOUNTED, earlier).stopped && OnlyMessagesStop(served)
    ensures
      var s := JobRunSockets.After(events);
      && Terminal(s.run)
      && After(MOUNTED, earlier + served).cached == Some(s.run)
      && After(MOUNTED, earlier + served + rest).cached == Some(s.run)
  {
    var s := JobRunSockets.After(events);
    JobRunSockets.LiveSubscribersSeeFinalStatus(events, id);
    AfterSplits(MOUNTED, earlier, served);
    FinalStatusSticks(After(MOUNTED, earlier), served, s.run);
    TerminalCacheIsFinal(earlier + served, rest);
  }
}
