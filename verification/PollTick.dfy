/** The bot's alert poller as it runs: the paging loop, the choice of a token, the
    fan-out and the saved mark. */
module PollTick {
  import opened Wrappers
  import opened Poller
  import Alerts

  const PAGE_LIMIT: nat := 200

  /** The paging loop over a table that does not change meanwhile: the pages put together
      are the whole list, for any number of rows. */
  method FetchActiveAlerts(rows: seq<Alerts.Alert>) returns (alerts: seq<nat>)
    ensures alerts == ActiveIds(rows)
  {
    alerts := [];
    var offset: nat := 0;
    while true
      invariant offset <= |ActiveIds(rows)| && alerts == ActiveIds(rows)[..offset]
      decreases |ActiveIds(rows)| - offset
    {
      var page := ListActive(rows, PAGE_LIMIT, offset);
      alerts := alerts + page.items;
      offset := offset + |page.items|;
      if page.items == [] || offset >= page.total {
        break;
      }
    }
  }

  /** max(ids, default=...). */
  method MaxId(ids: seq<nat>, default: nat) returns (max: nat)
    ensures ids == [] ==> max == default
    ensures ids != [] ==> max in ids && forall id :: id in ids ==> id <= max
  {
    if ids == [] {
      return default;
    }
    max := ids[0];
    for i := 1 to |ids|
      invariant max in ids[..i] && forall k: nat :: k < i ==> ids[k] <= max
    {
      if ids[i] > max {
        max := ids[i];
      }
    }
  }

  lemma LastIsGreatest(a: seq<nat>)
    requires Ascending(a) && a != []
    ensures a == a[..|a| - 1] + [a[|a| - 1]] && Ascending(a[..|a| - 1])
    ensures forall id: nat :: id in a[..|a| - 1] <==> id in a && id != a[|a| - 1]
    ensures forall id: nat :: id in a ==> id <= a[|a| - 1]
  {
  }

  /** Two strictly increasing lists of the same ids are the same list. */
  lemma {:induction false} AscendingIsUnique(a: seq<nat>, b: seq<nat>)
    requires Ascending(a) && Ascending(b)
    requires forall id: nat :: id in a <==> id in b
    ensures a == b
  {
    if a == [] {
      assert forall i: nat :: i < |b| ==> b[i] in b;
    } else {
      assert a[|a| - 1] in a;
      assert a[|a| - 1] in b;
      assert b[|b| - 1] in b;
      LastIsGreatest(a);
      LastIsGreatest(b);
      assert a[|a| - 1] == b[|b| - 1];
      var a', b' := a[..|a| - 1], b[..|b| - 1];
      forall id: nat
        ensures id in a' <==> id in b'
      {
        assert id in a' <==> id in a && id != a[|a| - 1];
        assert id in b' <==> id in b && id != b[|b| - 1];
      }
      AscendingIsUnique(a', b');
    }
  }

  /** sorted(...) of the alerts above the mark on a pushable channel, whatever order the
      fetch delivered them in. */
  method SortedCandidates(alerts: seq<nat>, channels: Channels, mark: nat) returns (sorted: seq<nat>)
    requires forall i: nat, k: nat :: i < k < |alerts| ==> alerts[i] != alerts[k]
    ensures Ascending(sorted)
    ensures forall id :: id in sorted <==> id in alerts && id > mark && channels(id) != WEB
  {
    sorted := [];
    for i := 0 to |alerts|
      invariant Ascending(sorted)
      invariant forall id :: id in sorted <==> id in alerts[..i] && id > mark && Pushable(channels(id))
    {
      var id := alerts[i];
      assert alerts[..i + 1] == alerts[..i] + [id];
      if id > mark && Pushable(channels(id)) {
        sorted := Inserted(sorted, id);
      }
    }
    assert alerts[..|alerts|] == alerts;
  }

  method Inserted(s: seq<nat>, id: nat) returns (r: seq<nat>)
    requires Ascending(s) && id !in s
    ensures Ascending(r)
    ensures forall k :: k in r <==> k in s || k == id
  {
    var i := 0;
    while i < |s| && s[i] < id
      invariant 0 <= i <= |s|
      invariant forall k: nat :: k < i ==> s[k] < id
    {
      i := i + 1;
    }
    r := s[..i] + [id] + s[i..];
    assert s == s[..i] + s[i..];
  }

  /** What a tick works on: the mark to save and the alerts to push. */
  method Prepare(alerts: seq<nat>, ghost rows: seq<Alerts.Alert>, channels: Channels, mark: nat)
    returns (newMaxId: nat, candidates: seq<nat>)
    requires alerts == ActiveIds(rows)
    ensures newMaxId == NewMark(rows, mark) && candidates == Candidates(rows, channels, mark)
  {
    ActiveIdsOk(rows);
    newMaxId := MaxId(alerts, mark);
    if alerts != [] {
      assert alerts[0] in alerts;
      var k: nat :| k < |alerts| && alerts[k] == newMaxId;
    }
    candidates := SortedCandidates(alerts, channels, mark);
    CandidatesOk(rows, channels, mark);
    AscendingIsUnique(candidates, Candidates(rows, channels, mark));
  }

  datatype User = User(telegramUserId: nat, chatId: int)

  /** What GET /api/alerts answers to a user's token. */
  datatype Token = Valid | Unauthorized | Unreachable

  type Tokens = nat -> Token

  /** linked_users after the token search: refused tokens met on the way are deleted. */
  function Kept(users: seq<User>, tokens: Tokens): seq<User> {
    if users != [] && tokens(users[0].telegramUserId) == Unauthorized then Kept(users[1..], tokens) else users
  }

  function ToAll(users: seq<User>, id: nat): seq<(int, nat)> {
    seq(|users|, i requires 0 <= i < |users| => (users[i].chatId, id))
  }

  /** The messages attempted: for each alert, one to every user, in order. */
  function Fanout(alerts: seq<nat>, users: seq<User>): seq<(int, nat)> {
    if alerts == [] then [] else Fanout(alerts[..|alerts| - 1], users) + ToAll(users, alerts[|alerts| - 1])
  }

  datatype Marking = Marked | TokenLost | MarkFailed

  /** The alerts recorded as delivered: those before the first refused token whose call
      succeeds. */
  function Recorded(alerts: seq<nat>, marking: nat -> Marking): set<nat> {
    if alerts == [] then {}
    else
      var earlier := alerts[..|alerts| - 1];
      Recorded(earlier, marking) +
      (if marking(alerts[|alerts| - 1]) == Marked && TokenHolds(earlier, marking) then {alerts[|alerts| - 1]} else {})
  }

  predicate TokenHolds(alerts: seq<nat>, marking: nat -> Marking) {
    forall i :: 0 <= i < |alerts| ==> marking(alerts[i]) != TokenLost
  }

  // ---------------------------------------------------------------- what a tick does

  /** The alerts to push: the ACTIVE ones above the mark that are not for the web only, each
      once, in order. */
  ghost predicate ToPush(rows: seq<Alerts.Alert>, channels: Channels, mark: nat, alerts: seq<nat>) {
    && Ascending(alerts)
    && forall id: nat :: id in alerts <==>
         1 <= id <= |rows| && rows[id - 1].status == Alerts.Active && id > mark && channels(id) != WEB
  }

  /** One message per alert and user: alert by alert, and each alert to every user in order. */
  predicate EachToEach(alerts: seq<nat>, users: seq<User>, messages: seq<(int, nat)>) {
    && |messages| == |alerts| * |users|
    && forall k: nat, i: nat | k < |alerts| && i < |users| ::
         k * |users| + i < |messages| && messages[k * |users| + i] == (users[i].chatId, alerts[k])
  }

  /** The users left are those from the first one on whose token is not refused. */
  ghost predicate Dropped(users: seq<User>, tokens: Tokens, left: seq<User>) {
    exists n: nat ::
      && n <= |users| && left == users[n..]
      && (forall i: nat | i < n :: tokens(users[i].telegramUserId) == Unauthorized)
      && (n < |users| ==> tokens(users[n].telegramUserId) != Unauthorized)
  }

  /** The call for this alert succeeds and no earlier one has lost the token. */
  ghost predicate Delivers(alerts: seq<nat>, marking: nat -> Marking, id: nat) {
    exists k: nat ::
      && k < |alerts| && alerts[k] == id && marking(id) == Marked
      && forall i: nat | i < k :: marking(alerts[i]) != TokenLost
  }

  /** The newest ACTIVE alert, or the old mark when there is none. */
  ghost predicate Newest(rows: seq<Alerts.Alert>, mark: nat, newMark: nat) {
    if exists i :: 0 <= i < |rows| && rows[i].status == Alerts.Active then
      && 1 <= newMark <= |rows| && rows[newMark - 1].status == Alerts.Active
      && forall i :: newMark <= i < |rows| ==> rows[i].status != Alerts.Active
    else newMark == mark
  }

  lemma CandidatesMean(rows: seq<Alerts.Alert>, channels: Channels, mark: nat)
    ensures ToPush(rows, channels, mark, Candidates(rows, channels, mark))
  {
    CandidatesOk(rows, channels, mark);
    assert forall id: nat :: Candidate(rows, channels, mark, id) <==>
      1 <= id <= |rows| && rows[id - 1].status == Alerts.Active && id > mark && channels(id) != WEB;
  }

  lemma NewMarkMeans(rows: seq<Alerts.Alert>, mark: nat)
    ensures Newest(rows, mark, NewMark(rows, mark))
  {
    ActiveIdsOk(rows);
    var ids := ActiveIds(rows);
    forall i | 0 <= i < |rows| && rows[i].status == Alerts.Active
      ensures ids != [] && i < ids[0]
    {
      assert ActiveId(rows, i + 1);
      var n: nat :| n < |ids| && ids[n] == i + 1;
    }
    assert ids != [] ==> ids[0] in ids && ActiveId(rows, ids[0]);
  }

  lemma OneMore(n: nat, m: nat)
    ensures (n + 1) * m == n * m + m
  {
  }

  lemma {:induction false} FanoutLength(alerts: seq<nat>, users: seq<User>)
    ensures |Fanout(alerts, users)| == |alerts| * |users|
  {
    if alerts != [] {
      FanoutLength(alerts[..|alerts| - 1], users);
      OneMore(|alerts| - 1, |users|);
    }
  }

  lemma {:induction false} FanoutAt(alerts: seq<nat>, users: seq<User>, k: nat, i: nat)
    requires k < |alerts| && i < |users|
    ensures k * |users| + i < |Fanout(alerts, users)|
    ensures Fanout(alerts, users)[k * |users| + i] == (users[i].chatId, alerts[k])
  {
    var n := |alerts| - 1;
    FanoutLength(alerts[..n], users);
    if k < n {
      FanoutAt(alerts[..n], users, k, i);
    }
  }

  lemma FanoutMeans(alerts: seq<nat>, users: seq<User>)
    ensures EachToEach(alerts, users, Fanout(alerts, users))
  {
    FanoutLength(alerts, users);
    forall k: nat, i: nat | k < |alerts| && i < |users|
      ensures k * |users| + i < |Fanout(alerts, users)|
      ensures Fanout(alerts, users)[k * |users| + i] == (users[i].chatId, alerts[k])
    {
      FanoutAt(alerts, users, k, i);
    }
  }

  lemma {:induction false} KeptMeans(users: seq<User>, tokens: Tokens)
    ensures Dropped(users, tokens, Kept(users, tokens))
  {
    if users != [] && tokens(users[0].telegramUserId) == Unauthorized {
      KeptMeans(users[1..], tokens);
      var n: nat :|
        && n <= |users[1..]| && Kept(users[1..], tokens) == users[1..][n..]
        && (forall i: nat | i < n :: tokens(users[1..][i].telegramUserId) == Unauthorized)
        && (n < |users[1..]| ==> tokens(users[1..][n].telegramUserId) != Unauthorized);
      assert users[1..][n..] == users[n + 1..];
      forall i: nat | i < n + 1
        ensures tokens(users[i].telegramUserId) == Unauthorized
      {
        assert i > 0 ==> users[i] == users[1..][i - 1];
      }
    } else {
      assert users[0..] == users;
    }
  }

  lemma {:induction false} RecordedMeans(alerts: seq<nat>, marking: nat -> Marking, id: nat)
    ensures id in Recorded(alerts, marking) <==> Delivers(alerts, marking, id)
  {
    if alerts != [] {
      var n := |alerts| - 1;
      RecordedMeans(alerts[..n], marking, id);
      if Delivers(alerts[..n], marking, id) {
        var k: nat :| k < n && alerts[..n][k] == id && forall i: nat | i < k :: marking(alerts[..n][i]) != TokenLost;
        assert forall i: nat | i < k :: alerts[..n][i] == alerts[i];
        assert alerts[k] == id;
      }
      if Delivers(alerts, marking, id) {
        var k: nat :| k < |alerts| && alerts[k] == id && forall i: nat | i < k :: marking(alerts[i]) != TokenLost;
        assert k < n ==> alerts[..n][k] == id;
      }
    }
  }

  lemma TickMeans(rows: seq<Alerts.Alert>, channels: Channels, mark: nat, users: seq<User>, marking: nat -> Marking)
    ensures
      var candidates := Candidates(rows, channels, mark);
      && ToPush(rows, channels, mark, candidates) && EachToEach(candidates, users, Fanout(candidates, users))
      && (forall id :: id in Recorded(candidates, marking) <==> Delivers(candidates, marking, id))
      && Newest(rows, mark, NewMark(rows, mark))
  {
    var candidates := Candidates(rows, channels, mark);
    CandidatesMean(rows, channels, mark);
    FanoutMeans(candidates, users);
    NewMarkMeans(rows, mark);
    forall id
      ensures id in Recorded(candidates, marking) <==> Delivers(candidates, marking, id)
    {
      RecordedMeans(candidates, marking, id);
    }
  }

  class Bot {
    var lastSeenAlertId: nat
    var linkedUsers: seq<User>
    var sent: seq<(int, nat)>
    var delivered: set<nat>   // alerts whose delivered_telegram_at is set

    constructor ()
      ensures lastSeenAlertId == 0 && linkedUsers == [] && sent == [] && delivered == {}
    {
      lastSeenAlertId, linkedUsers, sent, delivered := 0, [], [], {};
    }

    /** Tries the linked users in order; on a refused token the user is removed and the
        next one tried, on any other failure the tick is given up. */
    method PickToken(tokens: Tokens, rows: seq<Alerts.Alert>) returns (alerts: Option<seq<nat>>)
      modifies this`linkedUsers
      ensures linkedUsers == Kept(old(linkedUsers), tokens)
      ensures alerts.Some? <==> linkedUsers != [] && tokens(linkedUsers[0].telegramUserId) == Valid
      ensures alerts.Some? ==> alerts.value == ActiveIds(rows)
    {
      var users := linkedUsers;
      for i := 0 to |users|
        invariant linkedUsers == users[i..] && Kept(users, tokens) == Kept(users[i..], tokens)
      {
        assert users[i..][1..] == users[i + 1..];
        match tokens(users[i].telegramUserId)
        case Unauthorized => linkedUsers := linkedUsers[1..];
        case Unreachable => return None;
        case Valid =>
          var fetched := FetchActiveAlerts(rows);
          return Some(fetched);
      }
      return None;
    }

    /** One DM attempt to every user. */
    method FanOut(id: nat)
      modifies this`sent
      ensures sent == old(sent) + ToAll(linkedUsers, id)
    {
      for i := 0 to |linkedUsers|
        invariant sent == old(sent) + ToAll(linkedUsers[..i], id)
      {
        sent := sent + [(linkedUsers[i].chatId, id)];
      }
      assert linkedUsers[..|linkedUsers|] == linkedUsers;
    }

    /** The fan-out and the delivered bookkeeping, which stops at the first refused token. */
    method Push(candidates: seq<nat>, marking: nat -> Marking)
      modifies this`sent, this`delivered
      ensures sent == old(sent) + Fanout(candidates, linkedUsers)
      ensures delivered == old(delivered) + Recorded(candidates, marking)
    {
      var tokenOk := true;
      for i := 0 to |candidates|
        invariant sent == old(sent) + Fanout(candidates[..i], linkedUsers)
        invariant tokenOk <==> TokenHolds(candidates[..i], marking)
        invariant delivered == old(delivered) + Recorded(candidates[..i], marking)
      {
        var id := candidates[i];
        FanOut(id);
        assert candidates[..i + 1][..i] == candidates[..i];
        if tokenOk {
          match marking(id)
          case Marked => delivered := delivered + {id};
          case TokenLost => tokenOk := false;
          case MarkFailed =>
        }
      }
      assert candidates[..|candidates|] == candidates;
    }

    /** A tick that nothing crashes. With a usable token it sends the spec's candidates,
        each to every remaining user, and saves the spec's mark, whatever becomes of the
        messages and of the delivered bookkeeping; otherwise it sends and saves nothing. */
    method RunPollTick(rows: seq<Alerts.Alert>, channels: Channels, tokens: Tokens, marking: nat -> Marking)
      returns (completed: bool)
      modifies this
      ensures linkedUsers == Kept(old(linkedUsers), tokens)
      ensures completed <==> linkedUsers != [] && tokens(linkedUsers[0].telegramUserId) == Valid
      ensures
        var candidates := Candidates(rows, channels, old(lastSeenAlertId));
        && sent == old(sent) + (if completed then Fanout(candidates, linkedUsers) else [])
        && lastSeenAlertId == (if completed then NewMark(rows, old(lastSeenAlertId)) else old(lastSeenAlertId))
        && delivered == old(delivered) + (if completed then Recorded(candidates, marking) else {})
      ensures Dropped(old(linkedUsers), tokens, linkedUsers) && old(sent) <= sent
      ensures completed ==> exists candidates: seq<nat> ::
                && ToPush(rows, channels, old(lastSeenAlertId), candidates)
                && EachToEach(candidates, linkedUsers, sent[|old(sent)|..])
                && forall id :: id in delivered <==> id in old(delivered) || Delivers(candidates, marking, id)
      ensures completed ==> Newest(rows, old(lastSeenAlertId), lastSeenAlertId)
      ensures !completed ==> sent == old(sent) && delivered == old(delivered) && lastSeenAlertId == old(lastSeenAlertId)
    {
      KeptMeans(linkedUsers, tokens);
      TickMeans(rows, channels, lastSeenAlertId, Kept(linkedUsers, tokens), marking);
      if linkedUsers == [] {
        return false;
      }
      var fetched := PickToken(tokens, rows);
      if fetched.None? {
        return false;
      }
      var newMaxId, candidates := Prepare(fetched.value, rows, channels, lastSeenAlertId);
      Push(candidates, marking);
      lastSeenAlertId := newMaxId;
      return true;
    }
  }
}
