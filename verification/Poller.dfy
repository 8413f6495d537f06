/** The bot's alert poller (bot/poller.py): what one tick pushes, the high-water mark it
    saves, and what that gives over a whole history of the alerts table.

    The id of the row at index i is i + 1; the saved mark starts at 0. */
module Poller {
  import opened Wrappers
  import Alerts

  datatype Channel = TELEGRAM | WEB | BOTH

  predicate Pushable(c: Channel) { c == TELEGRAM || c == BOTH }

  /** The immutable channel column, by id. */
  type Channels = nat -> Channel

  predicate ActiveId(rows: seq<Alerts.Alert>, id: nat) {
    1 <= id <= |rows| && rows[id - 1].status == Alerts.Active
  }

  // ---------------------------------------------------------------- GET /api/alerts?status=ACTIVE

  /** The ids of the ACTIVE rows, newest first. */
  function ActiveIds(rows: seq<Alerts.Alert>): seq<nat> {
    if rows == [] then []
    else
      var n := |rows|;
      (if rows[n - 1].status == Alerts.Active then [n] else []) + ActiveIds(rows[..n - 1])
  }

  ghost predicate Descending(s: seq<nat>) {
    forall i: nat, k: nat :: i < k < |s| ==> s[i] > s[k]
  }

  ghost predicate Ascending(s: seq<nat>) {
    forall i: nat, k: nat :: i < k < |s| ==> s[i] < s[k]
  }

  lemma {:induction false} ActiveIdsOk(rows: seq<Alerts.Alert>)
    ensures Descending(ActiveIds(rows))
    ensures forall id: nat :: id in ActiveIds(rows) <==> ActiveId(rows, id)
  {
    if rows != [] {
      var n := |rows|;
      var rest := rows[..n - 1];
      ActiveIdsOk(rest);
      assert forall id: nat :: ActiveId(rest, id) <==> id < n && ActiveId(rows, id);
      assert forall k: nat :: k < |ActiveIds(rest)| ==> ActiveIds(rest)[k] in ActiveIds(rest);
    }
  }

  datatype Page = Page(items: seq<nat>, total: nat)

  function Min(a: nat, b: nat): nat { if a < b then a else b }

  function ListActive(rows: seq<Alerts.Alert>, limit: nat, offset: nat): Page {
    var ids := ActiveIds(rows);
    Page(ids[Min(offset, |ids|)..Min(offset + limit, |ids|)], |ids|)
  }

  // ---------------------------------------------------------------- one tick

  /** What a tick pushes, in increasing order of id. */
  function Candidates(rows: seq<Alerts.Alert>, channels: Channels, mark: nat): seq<nat> {
    if rows == [] then []
    else
      var n := |rows|;
      Candidates(rows[..n - 1], channels, mark) +
      (if rows[n - 1].status == Alerts.Active && n > mark && Pushable(channels(n)) then [n] else [])
  }

  ghost predicate Candidate(rows: seq<Alerts.Alert>, channels: Channels, mark: nat, id: nat) {
    ActiveId(rows, id) && id > mark && Pushable(channels(id))
  }

  lemma {:induction false} CandidatesOk(rows: seq<Alerts.Alert>, channels: Channels, mark: nat)
    ensures Ascending(Candidates(rows, channels, mark))
    ensures forall id: nat :: id in Candidates(rows, channels, mark) <==> Candidate(rows, channels, mark, id)
  {
    if rows != [] {
      var n := |rows|;
      var rest := rows[..n - 1];
      CandidatesOk(rest, channels, mark);
      assert forall id: nat :: ActiveId(rest, id) <==> id < n && ActiveId(rows, id);
      var c := Candidates(rest, channels, mark);
      assert forall k: nat :: k < |c| ==> c[k] in c;
    }
  }

  /** The mark saved at the end of a completed tick. */
  function NewMark(rows: seq<Alerts.Alert>, mark: nat): nat {
    var ids := ActiveIds(rows);
    if ids == [] then mark else ids[0]
  }

  // ---------------------------------------------------------------- histories

  /** Skipped: no linked user, a failed fetch, or every token refused. Crashed: an
      exception after `pushed` candidates; the mark is not saved. */
  datatype TickOutcome = Skipped | Completed | Crashed(pushed: nat)

  datatype Event = Table(change: Alerts.Event) | Tick(outcome: TickOutcome)

  datatype State = State(rows: seq<Alerts.Alert>, mark: nat)

  ghost function Apply(s: State, e: Event): State {
    match e
    case Table(change) => s.(rows := Alerts.Apply(s.rows, change))
    case Tick(outcome) => if outcome == Completed then s.(mark := NewMark(s.rows, s.mark)) else s
  }

  ghost function After(events: seq<Event>): State {
    if events == [] then State([], 0) else Apply(After(events[..|events| - 1]), events[|events| - 1])
  }

  /** The ids whose messages event k sends, in order. */
  ghost function Pushes(events: seq<Event>, channels: Channels, k: nat): seq<nat>
    requires k < |events|
  {
    var s := After(events[..k]);
    var all := Candidates(s.rows, channels, s.mark);
    match events[k]
    case Tick(Completed) => all
    case Tick(Crashed(n)) => all[..Min(n, |all|)]
    case _ => []
  }

  /** Event k is a completed tick whose fetch sees this alert ACTIVE. */
  ghost predicate Sees(events: seq<Event>, k: nat, id: nat) {
    k < |events| && events[k] == Tick(Completed) && ActiveId(After(events[..k]).rows, id)
  }

  ghost predicate SeenBefore(events: seq<Event>, k: nat, id: nat) {
    exists j: nat :: j < k && Sees(events, j, id)
  }

  lemma SeenByPrefix(events: seq<Event>, n: nat, id: nat)
    requires n <= |events|
    ensures SeenBefore(events[..n], n, id) <==> SeenBefore(events, n, id)
  {
    forall j: nat | j < n
      ensures Sees(events[..n], j, id) <==> Sees(events, j, id)
    {
      assert events[..n][..j] == events[..j];
    }
  }

  lemma SeenNext(events: seq<Event>, id: nat)
    requires events != []
    ensures
      var n := |events| - 1;
      SeenBefore(events, n + 1, id) <==> SeenBefore(events[..n], n, id) || Sees(events, n, id)
  {
    SeenByPrefix(events, |events| - 1, id);
  }

  lemma NewMarkBounds(rows: seq<Alerts.Alert>, mark: nat)
    requires mark <= |rows|
    ensures NewMark(rows, mark) <= |rows|
    ensures forall id: nat | ActiveId(rows, id) :: id <= NewMark(rows, mark)
  {
    ActiveIdsOk(rows);
    var ids := ActiveIds(rows);
    if ids != [] {
      assert ids[0] in ids;
    }
    forall id: nat | ActiveId(rows, id)
      ensures id <= NewMark(rows, mark)
    {
      var k: nat :| k < |ids| && ids[k] == id;
    }
  }

  lemma TableStep(rows: seq<Alerts.Alert>, e: Alerts.Event, id: nat)
    ensures |rows| <= |Alerts.Apply(rows, e)|
    ensures ActiveId(Alerts.Apply(rows, e), id) && id <= |rows| ==> ActiveId(rows, id)
  {
    Alerts.OneEventNeverReactivates(rows, e);
  }

  /** Although the mark can decrease, for the alerts that matter it is exact: an alert
      still ACTIVE is at or below the mark iff a completed tick has already seen it. */
  lemma {:induction false} MarkIsExact(events: seq<Event>)
    ensures After(events).mark <= |After(events).rows|
    ensures forall id: nat | ActiveId(After(events).rows, id) ::
              id <= After(events).mark <==> SeenBefore(events, |events|, id)
  {
    if events != [] {
      var n := |events| - 1;
      var prefix := events[..n];
      var before := After(prefix);
      var s := After(events);
      MarkIsExact(prefix);
      NewMarkBounds(before.rows, before.mark);
      if events[n].Table? {
        TableStep(before.rows, events[n].change, 0);
      }
      forall id: nat | ActiveId(s.rows, id)
        ensures id <= s.mark <==> SeenBefore(events, n + 1, id)
      {
        SeenNext(events, id);
        if events[n].Table? {
          TableStep(before.rows, events[n].change, id);
          if id > |before.rows| && SeenBefore(prefix, n, id) {
            SeenRowsExist(prefix, n, id);
          }
        }
      }
    }
  }

  lemma {:induction false} RowsGrow(events: seq<Event>, n: nat)
    requires n <= |events|
    ensures |After(events[..n]).rows| <= |After(events).rows|
    decreases |events|
  {
    if n == |events| {
      assert events[..n] == events;
    } else {
      var m := |events| - 1;
      assert events[..m][..n] == events[..n];
      RowsGrow(events[..m], n);
      if events[m].Table? {
        TableStep(After(events[..m]).rows, events[m].change, 0);
      }
    }
  }

  lemma SeenRowsExist(events: seq<Event>, n: nat, id: nat)
    requires n == |events| && SeenBefore(events, n, id)
    ensures id <= |After(events).rows|
  {
    var j: nat :| j < n && Sees(events, j, id);
    RowsGrow(events, j);
  }

  /** Every tick, completed or crashed, has as candidates exactly the eligible ACTIVE
      alerts that no completed tick has seen. So a completed tick pushes an alert iff it
      is the first completed tick whose fetch sees it, and pushes each once, in order of
      id; a crashed one pushes the first few of the same list. */
  lemma DeliveryIsExact(events: seq<Event>, channels: Channels, k: nat, id: nat)
    requires k < |events|
    ensures events[k] == Tick(Completed) ==>
              (id in Pushes(events, channels, k) <==>
               Sees(events, k, id) && channels(id) != WEB && !SeenBefore(events, k, id))
    ensures id in Pushes(events, channels, k) ==>
              ActiveId(After(events[..k]).rows, id) && channels(id) != WEB && !SeenBefore(events, k, id)
    ensures Ascending(Pushes(events, channels, k))
  {
    var s := After(events[..k]);
    CandidatesOk(s.rows, channels, s.mark);
    MarkIsExact(events[..k]);
    SeenByPrefix(events, k, id);
    assert Candidate(s.rows, channels, s.mark, id) <==>
           ActiveId(s.rows, id) && Pushable(channels(id)) && !SeenBefore(events, k, id);
  }

  /** No two completed ticks push the same alert. */
  lemma PushedOnce(events: seq<Event>, channels: Channels, j: nat, k: nat, id: nat)
    requires j < k < |events| && events[j] == Tick(Completed)
    requires id in Pushes(events, channels, j)
    ensures id !in Pushes(events, channels, k)
  {
    DeliveryIsExact(events, channels, j, id);
    DeliveryIsExact(events, channels, k, id);
    assert Sees(events, j, id);
  }

  /** A completed tick among the first n events pushes the alert. */
  ghost predicate PushedBefore(events: seq<Event>, channels: Channels, n: nat, id: nat)
    requires n <= |events|
  {
    exists j: nat :: j < n && events[j] == Tick(Completed) && id in Pushes(events, channels, j)
  }

  lemma {:induction false} SeenIsPushed(events: seq<Event>, channels: Channels, k: nat, id: nat)
    requires k < |events| && Sees(events, k, id) && Pushable(channels(id))
    ensures PushedBefore(events, channels, k + 1, id)
    decreases k
  {
    if SeenBefore(events, k, id) {
      var j: nat :| j < k && Sees(events, j, id);
      SeenIsPushed(events, channels, j, id);
    } else {
      DeliveryIsExact(events, channels, k, id);
      assert id in Pushes(events, channels, k);
    }
  }

  /** By any point of a history an alert has been pushed by a completed tick iff it is
      eligible and a completed tick has run while it was ACTIVE. */
  lemma NeverMissed(events: seq<Event>, channels: Channels, n: nat, id: nat)
    requires n <= |events|
    ensures PushedBefore(events, channels, n, id) <==> channels(id) != WEB && SeenBefore(events, n, id)
  {
    if PushedBefore(events, channels, n, id) {
      var j: nat :| j < n && events[j] == Tick(Completed) && id in Pushes(events, channels, j);
      DeliveryIsExact(events, channels, j, id);
    }
    if Pushable(channels(id)) && SeenBefore(events, n, id) {
      var k: nat :| k < n && Sees(events, k, id);
      SeenIsPushed(events, channels, k, id);
    }
  }

  // ---------------------------------------------------------------- what does not hold

  lemma Extend(events: seq<Event>, e: Event)
    ensures After(events + [e]) == Apply(After(events), e)
  {
    assert (events + [e])[..|events|] == events;
  }

  function Offline(server: nat): Alerts.Key { Alerts.Key(Alerts.Server, server, Alerts.AgentOffline) }

  const TWO_RAISED: seq<Event> :=
    [Table(Alerts.Raised(Offline(1), Alerts.Critical))] + [Table(Alerts.Raised(Offline(2), Alerts.Critical))]

  lemma TwoRaised()
    ensures After(TWO_RAISED).mark == 0 && |After(TWO_RAISED).rows| == 2
    ensures ActiveId(After(TWO_RAISED).rows, 1) && ActiveId(After(TWO_RAISED).rows, 2)
  {
    var first: seq<Event> := [TWO_RAISED[0]];
    assert first[..0] == [];
    assert After(first).rows == [Alerts.NewAlert(Offline(1), Alerts.Critical)];
    Extend(first, TWO_RAISED[1]);
  }

  const TICKED: seq<Event> := TWO_RAISED + [Tick(Completed)]

  const RESOLVED: seq<Event> := TICKED + [Table(Alerts.ByAdmin(1, Alerts.ResolveIt(None)))]

  lemma Ticked()
    ensures After(TICKED).mark == 2 && After(TICKED).rows == After(TWO_RAISED).rows
  {
    TwoRaised();
    Extend(TWO_RAISED, Tick(Completed));
    NewestActive(After(TWO_RAISED).rows, 2);
  }

  lemma ResolvedThen()
    ensures After(RESOLVED + [Tick(Completed)]).mark == 1
  {
    TwoRaised();
    Ticked();
    Extend(TICKED, Table(Alerts.ByAdmin(1, Alerts.ResolveIt(None))));
    assert After(RESOLVED).rows[0] == After(TWO_RAISED).rows[0];
    Extend(RESOLVED, Tick(Completed));
    NewestActive(After(RESOLVED).rows, 1);
  }

  /** The mark is not monotone: once the newest ACTIVE alert is resolved, the next
      completed tick lowers it. */
  lemma MarkCanDecrease()
    ensures exists events: seq<Event>, n: nat :: n <= |events| && After(events).mark < After(events[..n]).mark
  {
    var events := RESOLVED + [Tick(Completed)];
    assert events[..|TICKED|] == TICKED;
    Ticked();
    ResolvedThen();
    assert After(events).mark < After(events[..|TICKED|]).mark;
  }

  lemma NewestActive(rows: seq<Alerts.Alert>, id: nat)
    requires ActiveId(rows, id) && forall k: nat | ActiveId(rows, k) :: k <= id
    ensures forall mark :: NewMark(rows, mark) == id
  {
    ActiveIdsOk(rows);
    var ids := ActiveIds(rows);
    var k: nat :| k < |ids| && ids[k] == id;
    assert ids[0] in ids;
  }

  // ---------------------------------------------------------------- a table changing under the paging

  /** The rows a fetch would collect in two pages if the table changed between them. */
  function TwoPages(first: seq<Alerts.Alert>, second: seq<Alerts.Alert>, limit: nat): seq<nat> {
    ListActive(first, limit, 0).items + ListActive(second, limit, |ListActive(first, limit, 0).items|).items
  }

  /** How many ACTIVE alerts are newer. */
  function Rank(rows: seq<Alerts.Alert>, id: nat): nat {
    if rows == [] then 0
    else Rank(rows[..|rows| - 1], id) + if |rows| > id && rows[|rows| - 1].status == Alerts.Active then 1 else 0
  }

  /** An ACTIVE alert stands in the list at its rank. */
  lemma {:induction false} RankIsPosition(rows: seq<Alerts.Alert>, id: nat)
    requires ActiveId(rows, id)
    ensures Rank(rows, id) < |ActiveIds(rows)| && ActiveIds(rows)[Rank(rows, id)] == id
  {
    var n := |rows|;
    if n == id {
      NoneNewer(rows[..n - 1], id);
    } else {
      RankIsPosition(rows[..n - 1], id);
    }
  }

  lemma {:induction false} NoneNewer(rows: seq<Alerts.Alert>, id: nat)
    requires |rows| <= id
    ensures Rank(rows, id) == 0
  {
    if rows != [] {
      NoneNewer(rows[..|rows| - 1], id);
    }
  }

  /** A page holds exactly the ACTIVE alerts whose rank falls into it. */
  lemma PageHoldsRanks(rows: seq<Alerts.Alert>, limit: nat, offset: nat, id: nat)
    ensures id in ListActive(rows, limit, offset).items <==>
            ActiveId(rows, id) && offset <= Rank(rows, id) < offset + limit
  {
    var ids := ActiveIds(rows);
    var lo, hi := Min(offset, |ids|), Min(offset + limit, |ids|);
    ActiveIdsOk(rows);
    InSlice(ids, lo, hi, id);
    if ActiveId(rows, id) {
      RankIsPosition(rows, id);
      OnlyPosition(ids, Rank(rows, id), id);
    }
  }

  lemma InSlice(ids: seq<nat>, lo: nat, hi: nat, id: nat)
    requires lo <= hi <= |ids|
    ensures id in ids[lo..hi] <==> exists k: nat :: lo <= k < hi && ids[k] == id
    ensures id in ids[lo..hi] ==> id in ids
  {
    if id in ids[lo..hi] {
      var k: nat :| k < hi - lo && ids[lo..hi][k] == id;
      assert ids[lo + k] == id;
    }
    if k: nat :| lo <= k < hi && ids[k] == id {
      assert ids[lo..hi][k - lo] == id;
    }
  }

  lemma OnlyPosition(ids: seq<nat>, r: nat, id: nat)
    requires Descending(ids) && r < |ids| && ids[r] == id
    ensures forall k: nat :: k < |ids| && ids[k] == id ==> k == r
  {
  }

  /** Exactly which alerts a fetch misses when the table changes between its two pages: those
      whose rank is not on the first page when that is read, and not on the second page --
      which starts where the first one ended -- when that is. */
  lemma TwoPagesMiss(first: seq<Alerts.Alert>, second: seq<Alerts.Alert>, limit: nat, id: nat)
    requires ActiveId(first, id) && ActiveId(second, id)
    ensures
      var offset := |ListActive(first, limit, 0).items|;
      id !in TwoPages(first, second, limit) <==>
      Rank(first, id) >= limit && !(offset <= Rank(second, id) < offset + limit)
  {
    PageHoldsRanks(first, limit, 0, id);
    PageHoldsRanks(second, limit, |ListActive(first, limit, 0).items|, id);
  }

  /** The servers 1 .. n going offline one after the other. */
  function OfflineRaises(n: nat): seq<Alerts.Event> {
    if n == 0 then [] else OfflineRaises(n - 1) + [Alerts.Raised(Offline(n), Alerts.Critical)]
  }

  lemma {:induction false} OfflineRows(n: nat)
    ensures
      var rows := Alerts.After(OfflineRaises(n));
      && |rows| == n
      && forall i :: 0 <= i < n ==> rows[i] == Alerts.NewAlert(Offline(i + 1), Alerts.Critical)
  {
    if n > 0 {
      OfflineRows(n - 1);
      var earlier := OfflineRaises(n - 1);
      var rows := Alerts.After(earlier);
      assert OfflineRaises(n)[..|OfflineRaises(n)| - 1] == earlier;
      assert !Alerts.HasActive(rows, Offline(n)) by {
        assert forall i :: 0 <= i < |rows| ==> rows[i].serverId == Some(i + 1);
      }
      assert Alerts.After(OfflineRaises(n)) == rows + [Alerts.NewAlert(Offline(n), Alerts.Critical)];
    }
  }

  lemma {:induction false} AllActive(rows: seq<Alerts.Alert>)
    requires forall i :: 0 <= i < |rows| ==> rows[i].status == Alerts.Active
    ensures |ActiveIds(rows)| == |rows|
    ensures forall i :: 0 <= i < |rows| ==> ActiveIds(rows)[i] == |rows| - i
  {
    if rows != [] {
      AllActive(rows[..|rows| - 1]);
    }
  }

  /** The stable table is needed: for every page size there is a table, reached by raises
      alone, in which resolving the newest alert between two pages makes the fetch skip an
      alert that is ACTIVE throughout, while the saved mark moves past it: no later tick
      has it as a candidate. */
  lemma ResolvingBetweenPagesSkipsOne(limit: nat)
    requires limit >= 1
    ensures
      var first := Alerts.After(OfflineRaises(limit + 1));
      var second := Alerts.Apply(first, Alerts.ByAdmin(limit, Alerts.ResolveIt(None)));
      var fetched := TwoPages(first, second, limit);
      && Alerts.Valid(first) && Alerts.Valid(second)
      && ActiveId(first, 1) && ActiveId(second, 1) && 1 !in fetched && limit + 1 in fetched
      && forall channels, mark: nat | mark >= limit + 1 :: !Candidate(second, channels, mark, 1)
  {
    var first := Alerts.After(OfflineRaises(limit + 1));
    assert |first| == limit + 1 && forall i :: 0 <= i <= limit ==> first[i].status == Alerts.Active by {
      OfflineRows(limit + 1);
    }
    assert Alerts.Valid(first) by { Alerts.NeverTwoActive(OfflineRaises(limit + 1)); }
    Alerts.AdminEffect(first, limit, Alerts.ResolveIt(None));
    NewestResolvedSkipsOldest(first, limit);
  }

  lemma NewestResolvedSkipsOldest(first: seq<Alerts.Alert>, limit: nat)
    requires limit >= 1 && |first| == limit + 1 && forall i :: 0 <= i <= limit ==> first[i].status == Alerts.Active
    ensures
      var second := Alerts.Admin(first, limit, Alerts.ResolveIt(None));
      var fetched := TwoPages(first, second, limit);
      ActiveId(first, 1) && ActiveId(second, 1) && 1 !in fetched && limit + 1 in fetched
  {
    var second := Alerts.Admin(first, limit, Alerts.ResolveIt(None));
    AllActive(first);
    assert ActiveIds(second) == ActiveIds(second[..limit]);
    AllActive(second[..limit]);
    assert ListActive(first, limit, 0).items[0] == limit + 1;
  }
}
