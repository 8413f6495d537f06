/** The bot's restore confirmation (bot/handlers/restore.py, bot/state.py): /restore opens
    a pending entry for the chat, the exact database name confirms it, /cancel drops it.
    Updates are handled one at a time. */
module BotRestore {
  import opened Wrappers

  datatype Pending = Pending(
    databaseName: string,
    recordId: int,
    instanceId: nat,
    user: nat,
    createdAt: int,
    attempts: nat)

  datatype Settings = Settings(ttl: int, maxAttempts: nat)

  /** What resolving a backup record through the API gives: an error or a missing record,
      or the SQL instance of its job, if it has one. */
  datatype Lookup = Failed | Resolved(instance: Option<nat>)

  /** An incoming update. `request` is None when the arguments do not parse; `linked`
      says whether the sender is linked; a sender may be absent on a text. */
  datatype Message =
    | Restore(chat: int, user: nat, at: int, linked: bool, request: Option<(string, int)>, lookup: Lookup)
    | Text(chat: int, sender: Option<nat>, at: int, text: string, senderLinked: bool, relookup: Lookup)
    | Cancel(chat: int, sender: Option<nat>)

  /** A create_restore_operation call. */
  datatype Submission = Submission(
    chat: int, user: nat, databaseName: string, recordId: int, instanceId: nat, confirmation: string)

  datatype State = State(pending: map<int, Pending>, submitted: seq<Submission>)

  predicate Opens(s: State, m: Message) {
    m.Restore? && m.linked && m.request.Some? && m.chat !in s.pending && m.lookup.Resolved? && m.lookup.instance.Some?
  }

  function Opened(m: Message): Pending
    requires m.Restore? && m.request.Some? && m.lookup.Resolved? && m.lookup.instance.Some?
  {
    Pending(m.request.value.0, m.request.value.1, m.lookup.instance.value, m.user, m.at, 0)
  }

  /** A text by the owner of the chat's pending entry: the only one confirm_restore heeds. */
  predicate Heeded(s: State, m: Message) {
    m.Text? && m.chat in s.pending && m.sender == Some(s.pending[m.chat].user)
  }

  predicate Expired(c: Settings, p: Pending, at: int) { at - p.createdAt > c.ttl }

  predicate Submits(c: Settings, s: State, m: Message) {
    && Heeded(s, m) && !Expired(c, s.pending[m.chat], m.at) && m.text == s.pending[m.chat].databaseName
    && m.senderLinked && m.relookup == Resolved(Some(s.pending[m.chat].instanceId))
  }

  predicate Mismatch(c: Settings, s: State, m: Message) {
    Heeded(s, m) && !Expired(c, s.pending[m.chat], m.at) && m.text != s.pending[m.chat].databaseName
  }

  function SubmissionOf(p: Pending, m: Message): Submission
    requires m.Text?
  {
    Submission(m.chat, p.user, p.databaseName, p.recordId, p.instanceId, m.text)
  }

  function Step(c: Settings, s: State, m: Message): State {
    match m
    case Restore(chat, _, _, _, _, _) => if Opens(s, m) then s.(pending := s.pending[chat := Opened(m)]) else s
    case Text(chat, _, at, text, _, _) =>
      if !Heeded(s, m) then s
      else
        var p := s.pending[chat];
        if Mismatch(c, s, m) && p.attempts + 1 < c.maxAttempts then
          s.(pending := s.pending[chat := p.(attempts := p.attempts + 1)])
        else
          State(s.pending - {chat}, if Submits(c, s, m) then s.submitted + [SubmissionOf(p, m)] else s.submitted)
    case Cancel(chat, sender) =>
      if chat in s.pending && sender == Some(s.pending[chat].user) then s.(pending := s.pending - {chat}) else s
  }

  function After(c: Settings, messages: seq<Message>): State {
    if messages == [] then State(map[], [])
    else Step(c, After(c, messages[..|messages| - 1]), messages[|messages| - 1])
  }

  /** What each message does: /restore opens an entry only in a chat without one; of the texts
      only the owner's count, an expired entry goes unheard, the exact name ends the entry and
      submits it if the record still resolves to its instance, and any other text ends it when
      the attempts are used up; /cancel is the owner's. */
  predicate Handled(c: Settings, before: State, m: Message, after: State) {
    match m
    case Restore(chat, user, at, linked, request, lookup) =>
      if linked && request.Some? && chat !in before.pending && lookup.Resolved? && lookup.instance.Some? then
        after == before.(pending := before.pending[chat :=
                           Pending(request.value.0, request.value.1, lookup.instance.value, user, at, 0)])
      else after == before
    case Text(chat, sender, at, text, senderLinked, relookup) =>
      if chat !in before.pending || sender != Some(before.pending[chat].user) then after == before
      else
        var p := before.pending[chat];
        var dropped := before.(pending := before.pending - {chat});
        if at - p.createdAt > c.ttl then after == dropped
        else if text == p.databaseName then
          after == if senderLinked && relookup == Resolved(Some(p.instanceId))
                   then dropped.(submitted := before.submitted +
                          [Submission(chat, p.user, p.databaseName, p.recordId, p.instanceId, text)])
                   else dropped
        else if p.attempts + 1 >= c.maxAttempts then after == dropped
        else after == before.(pending := before.pending[chat := p.(attempts := p.attempts + 1)])
    case Cancel(chat, sender) =>
      if chat in before.pending && sender == Some(before.pending[chat].user)
      then after == before.(pending := before.pending - {chat}) else after == before
  }

  lemma StepMeans(c: Settings, s: State, m: Message)
    ensures Handled(c, s, m, Step(c, s, m))
  {
  }

  /** An entry goes exactly when its owner cancels it, or sends a text that comes too late, is
      its name, or is one mismatch too many. */
  lemma EntryGoesIff(c: Settings, s: State, m: Message, chat: int)
    requires chat in s.pending
    ensures
      var p := s.pending[chat];
      chat !in Step(c, s, m).pending <==>
      m.chat == chat && !m.Restore? && m.sender == Some(p.user)
      && (m.Text? ==> m.at - p.createdAt > c.ttl || m.text == p.databaseName || p.attempts + 1 >= c.maxAttempts)
  {
  }

  function SenderOf(m: Message): Option<nat> { if m.Restore? then Some(m.user) else m.sender }

  /** Nobody but the owner changes a pending entry, and no message of one chat touches
      another chat's. */
  lemma OthersChangeNothing(c: Settings, s: State, m: Message, chat: int)
    requires chat in s.pending
    requires m.chat == chat ==> SenderOf(m) != Some(s.pending[chat].user)
    ensures chat in Step(c, s, m).pending && Step(c, s, m).pending[chat] == s.pending[chat]
    ensures m.chat == chat ==> Step(c, s, m).submitted == s.submitted
  {
  }

  // ---------------------------------------------------------------- histories

  /** Message j is a /restore that opens an entry of this chat. */
  ghost predicate OpensAt(c: Settings, messages: seq<Message>, j: nat, chat: int) {
    j < |messages| && messages[j].chat == chat && Opens(After(c, messages[..j]), messages[j])
  }

  /** The owner's mismatches with this entry among messages j+1 .. n-1. */
  ghost function Mismatches(c: Settings, messages: seq<Message>, j: nat, n: nat, chat: int): nat
    requires n <= |messages|
  {
    if n <= j + 1 then 0
    else
      Mismatches(c, messages, j, n - 1, chat) +
      if messages[n - 1].chat == chat && Mismatch(c, After(c, messages[..n - 1]), messages[n - 1]) then 1 else 0
  }

  ghost predicate SubmitsAt(c: Settings, messages: seq<Message>, k: nat, chat: int) {
    k < |messages| && messages[k].chat == chat && Submits(c, After(c, messages[..k]), messages[k])
  }

  /** The entry opened by message j is still the chat's entry before message n. */
  ghost predicate Stands(c: Settings, messages: seq<Message>, j: nat, n: nat, chat: int) {
    && j < n <= |messages| && OpensAt(c, messages, j, chat)
    && (forall i: nat | j < i < n :: !SubmitsAt(c, messages, i, chat) && !OpensAt(c, messages, i, chat))
    && chat in After(c, messages[..n]).pending
    && After(c, messages[..n]).pending[chat] == Opened(messages[j]).(attempts := Mismatches(c, messages, j, n, chat))
  }

  /** What a message that does not open the chat's entry does to one that survives it:
      nothing, or one more counted mismatch below the limit. */
  lemma SurvivingEntry(c: Settings, s: State, m: Message, chat: int)
    requires chat in Step(c, s, m).pending && !(m.chat == chat && Opens(s, m))
    ensures chat in s.pending && !(m.chat == chat && Submits(c, s, m))
    ensures
      var mismatch := m.chat == chat && Mismatch(c, s, m);
      && Step(c, s, m).pending[chat] ==
         s.pending[chat].(attempts := s.pending[chat].attempts + if mismatch then 1 else 0)
      && (mismatch ==> s.pending[chat].attempts + 1 < c.maxAttempts)
  {
    match m
    case Restore(_, _, _, _, _, _) =>
    case Text(_, _, _, _, _, _) =>
    case Cancel(_, _) =>
  }

  lemma StandsNext(c: Settings, messages: seq<Message>, j: nat, n: nat, chat: int)
    requires n < |messages| && Stands(c, messages, j, n, chat) && !OpensAt(c, messages, n, chat)
    requires chat in After(c, messages[..n + 1]).pending
    ensures Stands(c, messages, j, n + 1, chat)
    ensures Mismatches(c, messages, j, n + 1, chat) == Mismatches(c, messages, j, n, chat)
            || Mismatches(c, messages, j, n + 1, chat) < c.maxAttempts
  {
    var s := After(c, messages[..n]);
    assert messages[..n + 1][..n] == messages[..n];
    SurvivingEntry(c, s, messages[n], chat);
  }

  /** Every pending entry is one opened by an earlier /restore and standing since, with
      as many attempts as its owner made mismatches, fewer than the limit. */
  lemma {:induction false} PendingIsOpened(c: Settings, messages: seq<Message>, n: nat, chat: int) returns (j: nat)
    requires n <= |messages| && chat in After(c, messages[..n]).pending
    ensures Stands(c, messages, j, n, chat)
    ensures c.maxAttempts >= 1 ==> Mismatches(c, messages, j, n, chat) < c.maxAttempts
  {
    if n == 0 {
      assert false;
    } else {
      assert messages[..n][..n - 1] == messages[..n - 1];
      if OpensAt(c, messages, n - 1, chat) {
        j := n - 1;
      } else {
        SurvivingEntry(c, After(c, messages[..n - 1]), messages[n - 1], chat);
        j := PendingIsOpened(c, messages, n - 1, chat);
        StandsNext(c, messages, j, n - 1, chat);
      }
    }
  }

  /** Every restore the bot submits follows its own /restore by the same user in the same
      chat, for the same database, record and instance, confirmed with that very name at
      most the time-to-live later and after fewer owner mismatches than the limit, with no
      other submission of the chat in between. */
  lemma EverySubmissionIsRequested(c: Settings, messages: seq<Message>, k: nat) returns (j: nat)
    requires k < |messages| && Submits(c, After(c, messages[..k]), messages[k])
    ensures j < k && OpensAt(c, messages, j, messages[k].chat)
    ensures messages[k].sender == Some(messages[j].user) && messages[k].at - messages[j].at <= c.ttl
    ensures messages[k].text == messages[j].request.value.0 && messages[k].relookup == messages[j].lookup
    ensures After(c, messages[..k + 1]).submitted == After(c, messages[..k]).submitted +
              [Submission(messages[j].chat, messages[j].user, messages[j].request.value.0, messages[j].request.value.1,
                          messages[j].lookup.instance.value, messages[k].text)]
    ensures c.maxAttempts >= 1 ==> Mismatches(c, messages, j, k, messages[k].chat) < c.maxAttempts
    ensures forall i: nat | j < i < k :: !SubmitsAt(c, messages, i, messages[k].chat)
  {
    j := PendingIsOpened(c, messages, k, messages[k].chat);
    assert messages[..k + 1][..k] == messages[..k];
  }

  /** And each such confirmation of a standing entry is submitted, however many mismatches came
      before it. */
  lemma StandingEntrySubmits(c: Settings, messages: seq<Message>, j: nat, k: nat, chat: int)
    requires k < |messages| && Stands(c, messages, j, k, chat)
    requires messages[k].Text? && messages[k].chat == chat && messages[k].sender == Some(messages[j].user)
    requires messages[k].at - messages[j].at <= c.ttl && messages[k].text == messages[j].request.value.0
    requires messages[k].senderLinked && messages[k].relookup == messages[j].lookup
    ensures After(c, messages[..k + 1]).submitted == After(c, messages[..k]).submitted +
              [Submission(chat, messages[j].user, messages[j].request.value.0, messages[j].request.value.1,
                          messages[j].lookup.instance.value, messages[k].text)]
  {
    assert messages[..k + 1][..k] == messages[..k];
  }

  /** Each /restore yields at most one submission. */
  lemma OneSubmissionPerRestore(c: Settings, messages: seq<Message>, k: nat, l: nat)
    requires k < l < |messages| && messages[k].chat == messages[l].chat
    requires Submits(c, After(c, messages[..k]), messages[k]) && Submits(c, After(c, messages[..l]), messages[l])
    ensures exists i: nat :: k < i < l && OpensAt(c, messages, i, messages[l].chat)
  {
    var j := EverySubmissionIsRequested(c, messages, l);
    assert SubmitsAt(c, messages, k, messages[l].chat);
    assert j != k;
  }

  class Bot {
    const settings: Settings
    var pendingRestores: map<int, Pending>
    var submitted: seq<Submission>

    constructor (settings: Settings)
      ensures this.settings == settings && View() == State(map[], [])
    {
      this.settings := settings;
      pendingRestores, submitted := map[], [];
    }

    function View(): State
      reads this
    {
      State(pendingRestores, submitted)
    }

    method HandleRestore(m: Message)
      requires m.Restore?
      modifies this`pendingRestores
      ensures View() == Step(settings, old(View()), m) && Handled(settings, old(View()), m, View())
    {
      if !m.linked {
        return;
      }
      if m.request == None {
        return;
      }
      if m.chat in pendingRestores {
        return;
      }
      match m.lookup
      case Failed => return;
      case Resolved(instance) =>
        if instance == None {
          return;
        }
        var pending := Pending(m.request.value.0, m.request.value.1, instance.value, m.user, m.at, 0);
        pendingRestores := pendingRestores[m.chat := pending];
    }

    /** The entry is cleared before the API is asked, so it is gone whatever it answers. */
    method ConfirmRestore(m: Message)
      requires m.Text?
      modifies this`pendingRestores, this`submitted
      ensures View() == Step(settings, old(View()), m) && Handled(settings, old(View()), m, View())
    {
      if m.chat !in pendingRestores {
        return;
      }
      var pending := pendingRestores[m.chat];
      if m.sender == None || m.sender.value != pending.user {
        return;
      }
      if m.at - pending.createdAt > settings.ttl {
        pendingRestores := pendingRestores - {m.chat};
        return;
      }
      if m.text == pending.databaseName {
        pendingRestores := pendingRestores - {m.chat};
        if !m.senderLinked {
          return;
        }
        match m.relookup
        case Failed => return;
        case Resolved(instance) =>
          if instance != Some(pending.instanceId) {
            return;
          }
          var submission := Submission(m.chat, pending.user, pending.databaseName, pending.recordId,
                                       pending.instanceId, m.text);
          submitted := submitted + [submission];
          return;
      }
      pending := pending.(attempts := pending.attempts + 1);
      pendingRestores := pendingRestores[m.chat := pending];
      if pending.attempts >= settings.maxAttempts {
        pendingRestores := pendingRestores - {m.chat};
      }
    }

    method HandleCancel(m: Message)
      requires m.Cancel?
      modifies this`pendingRestores
      ensures View() == Step(settings, old(View()), m) && Handled(settings, old(View()), m, View())
    {
      if m.chat !in pendingRestores {
        return;
      }
      if m.sender == None || m.sender.value != pendingRestores[m.chat].user {
        return;
      }
      pendingRestores := pendingRestores - {m.chat};
    }
  }
}
