/** What the interleavings of JobRunSockets deliver to the subscribers. */
module JobRunBroadcasts {
  import opened Wrappers
  import opened JobRuns
  import opened JobRunSockets

  // ---------------------------------------------------------------- what is delivered

  /** A subscriber reads the run as it is committed, and sends that once; what a broadcast
      delivers is its own message. */
  lemma DeliveriesMean(s: State, id: nat)
    requires id in s.subs
    ensures
      var sub := s.subs[id];
      && (sub.pc == Registered ==>
            var read := Apply(s, ReadRun(id)).subs[id];
            read.seen == s.run && read.inbox == sub.inbox && read.pc == if Terminal(s.run) then Ending else Live)
      && (sub.pc == Live && sub.Open() ==> Apply(s, SendInitial(id)).subs[id].inbox == sub.inbox + [sub.seen])
      && (sub.pc == Replying && sub.Open() ==>
            Apply(s, Reply(id)).subs[id].inbox == sub.inbox + [sub.seen] && Apply(s, Reply(id)).subs[id].closed)
      && (forall k | k in s.senders && s.senders[k].phase == Sending && id in s.senders[k].rest && sub.Open() ::
            Apply(s, SendTo(k, id)).subs[id].inbox == sub.inbox + [s.senders[k].message])
  {
  }

  /** Whom the broadcast has passed by now has its message, unless gone or closed. */
  ghost predicate Heard(s: State, k: nat)
    requires k in s.senders
  {
    var sender := s.senders[k];
    sender.phase != Committed ==>
      forall id | id in sender.copied && id in s.subs && s.subs[id].Open()
                  && !(sender.phase == Sending && id in sender.rest) ::
        sender.message in s.subs[id].inbox
  }

  lemma SubStepKeepsHeard(s: State, id: nat, e: Event, k: nat)
    requires id in s.subs && k in s.senders && Heard(s, k)
    requires s.senders[k].copied <= s.subs.Keys
    ensures k in SubStep(s, id, e).senders && Heard(SubStep(s, id, e), k)
  {
  }

  lemma OtherSenderKeepsHeard(s: State, j: nat, e: Event, k: nat)
    requires j in s.senders && k in s.senders && j != k && Heard(s, k)
    requires s.senders[k].copied <= s.subs.Keys
    ensures k in SenderStep(s, j, e).senders && Heard(SenderStep(s, j, e), k)
  {
  }

  lemma OwnStepKeepsHeard(s: State, k: nat, e: Event)
    requires k in s.senders && Heard(s, k) && SenderOk(s, k)
    ensures k in SenderStep(s, k, e).senders && Heard(SenderStep(s, k, e), k)
  {
  }

  lemma StepKeepsHeard(s: State, e: Event, k: nat)
    requires Inv(s) && k in s.senders && Heard(s, k)
    ensures k in Apply(s, e).senders && Heard(Apply(s, e), k)
  {
    assert SenderOk(s, k);
    match e
    case Accept(_) =>
    case PatchCommits(_) =>
    case PatchBroadcasts(_, _) =>
    case RunEnds(_, _) =>
    case Snapshot(j) => if j in s.senders { SenderKeepsHeard(s, j, e, k); }
    case SendTo(j, _) => if j in s.senders { SenderKeepsHeard(s, j, e, k); }
    case Prune(j) => if j in s.senders { SenderKeepsHeard(s, j, e, k); }
    case Pop(j) => if j in s.senders { SenderKeepsHeard(s, j, e, k); }
    case Close(j, _) => if j in s.senders { SenderKeepsHeard(s, j, e, k); }
    case CloseDone(j) => if j in s.senders { SenderKeepsHeard(s, j, e, k); }
    case _ => if e.id in s.subs { SubStepKeepsHeard(s, e.id, e, k); }
  }

  lemma SenderKeepsHeard(s: State, j: nat, e: Event, k: nat)
    requires j in s.senders && k in s.senders && Heard(s, k) && SenderOk(s, k)
    ensures k in SenderStep(s, j, e).senders && Heard(SenderStep(s, j, e), k)
  {
    if j == k {
      OwnStepKeepsHeard(s, k, e);
    } else {
      OtherSenderKeepsHeard(s, j, e, k);
    }
  }

  lemma NewSenderIsCommitted(s: State, e: Event, k: nat)
    requires k !in s.senders && k in Apply(s, e).senders
    ensures Apply(s, e).senders[k].phase == Committed
  {
  }

  /** Over every interleaving: a broadcast whose sending is over -- of a PATCH or of the end of
      the run -- has reached every subscriber registered when it copied the registry whose
      socket is still open. */
  lemma {:induction false} BroadcastIsHeard(events: seq<Event>, k: nat)
    requires k in After(events).senders
    ensures Heard(After(events), k)
    ensures After(events).senders[k].phase != Committed && After(events).senders[k].phase != Sending ==>
              forall id | id in After(events).senders[k].copied && id in After(events).subs
                          && !After(events).subs[id].dropped && !After(events).subs[id].closed ::
                After(events).senders[k].message in After(events).subs[id].inbox
  {
    if events != [] {
      var m := |events| - 1;
      EveryReachableState(events[..m]);
      if k in After(events[..m]).senders {
        BroadcastIsHeard(events[..m], k);
        StepKeepsHeard(After(events[..m]), events[m], k);
      } else {
        NewSenderIsCommitted(After(events[..m]), events[m], k);
      }
    }
  }

  /** A broadcast starts with the status it was called with; the one that ends the run is the
      writer, and its message is the final status. */
  lemma BroadcastsStart(s: State, k: nat, status: Status)
    requires k !in s.senders
    ensures !Terminal(status) ==>
              && k in Apply(s, PatchBroadcasts(k, status)).senders
              && Apply(s, PatchBroadcasts(k, status)).senders[k].message == status
    ensures !Terminal(status) && !Terminal(s.run) ==> Apply(s, PatchCommits(status)).run == status
    ensures Terminal(status) && !Terminal(s.run) ==>
              var after := Apply(s, RunEnds(k, status));
              after.run == status && after.writer == Some(k) && k in after.senders && after.senders[k].message == status
  {
  }
}
