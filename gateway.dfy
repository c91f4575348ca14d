/** The backend gateway: the tables it reads and writes, held as maps and
    sequences of one object, and what each call changes and returns. Database
    errors, thrown exceptions, the webhook's answer, the clock and the ids the
    database assigns are inputs of each call. */
module Gateway {
  import opened Sessions
  import opened Messages
  import opened Grouping

  /** A row of `chat_sessions_state`, keyed by its `session_id`. */
  datatype StateRow = StateRow(status: Status, agentId: Option<UserId>, isPinned: bool, lastUpdated: int)

  /** What `getSessionStatus` hands back: a stored row with its key, or the
      default record. */
  datatype SessionState = SessionState(sessionId: Option<SessionId>, status: Status, agentId: Option<UserId>,
                                       isPinned: bool, lastUpdated: int)

  /** The record returned whenever no stored row can be read. */
  function Default(sessionId: Option<SessionId>, now: int): SessionState
  {
    SessionState(sessionId, BotActive, None, false, now)
  }

  /** `is_pinned` of a row the upsert creates; the column default of the table. */
  const PinnedDefault := false

  /** A row of `profiles`, reduced to what the client reads and writes. */
  datatype Profile = Profile(needsPasswordChange: bool, updatedAt: int)

  /** A row of `knowledge_base`. */
  datatype KbRow = KbRow(question: string, answer: string, agent: Option<UserId>,
                         messageId: Option<int>, sessionId: Option<SessionId>)

  /** The body posted to the agent webhook. */
  datatype WebhookCall = WebhookCall(sessionId: SessionId, message: string, agentId: Option<UserId>)

  /** How an insert into the denylist ends: done, or refused with a
      Postgres error code (a thrown exception is a refusal with another code). */
  datatype InsertResult = Done | Refused(code: string)

  /** Postgres' unique-violation code: the session is already listed. */
  const UniqueViolation := "23505"

  /** How the webhook request ends: an HTTP status, or a network error. */
  datatype WebhookOutcome = Responded(httpStatus: int) | NetworkError

  /** The `errorType` values of a failed send. */
  datatype SendError = ConfigError | ClientMissing | SaveFailed | WebhookRejected(httpStatus: int) | NetworkOrCode

  /** What `sendAgentMessageViaN8N` returns. */
  datatype SendResult = Sent(messageId: int) | SendFailed(error: SendError)

  /** `url && url.startsWith('http')` */
  predicate UsableWebhook(url: string)
  {
    |url| >= 4 && url[..4] == "http"
  }

  // ---------------------------------------------------------------------------
  // History query
  // ---------------------------------------------------------------------------

  /** `.eq('session_id', sessionId)` applied only for a truthy id. */
  function RowsOf(history: seq<HistoryRow>, sessionId: SessionId): (r: seq<HistoryRow>)
    ensures forall x :: multiset(r)[x] == if sessionId == "" || x.sessionId == sessionId then multiset(history)[x] else 0
    decreases |history|
  {
    if history == [] then []
    else
      var init, last := history[..|history| - 1], history[|history| - 1];
      assert history == init + [last];
      RowsOf(init, sessionId) + (if sessionId == "" || last.sessionId == sessionId then [last] else [])
  }

  /** `.order('time', { ascending: false })` sorts by this key ascending. */
  function NewestFirst(r: HistoryRow): int { -r.time }

  function Reversed<T>(s: seq<T>): (r: seq<T>)
    ensures |r| == |s|
    ensures forall i :: 0 <= i < |s| ==> r[i] == s[|s| - 1 - i]
    ensures multiset(r) == multiset(s)
    decreases |s|
  {
    if s == [] then []
    else
      assert s == s[..|s| - 1] + [s[|s| - 1]];
      [s[|s| - 1]] + Reversed(s[..|s| - 1])
  }

  function Min(a: int, b: int): int { if a < b then a else b }

  /** The rows `getChatHistory` returns: newest first, cut at `limit`, reversed. */
  function HistoryQuery(history: seq<HistoryRow>, sessionId: SessionId, limit: nat): seq<HistoryRow>
  {
    var desc := SortBy(RowsOf(history, sessionId), NewestFirst);
    Reversed(desc[..Min(limit, |desc|)])
  }

  /** Every row the filter keeps is a row of the table for the session asked for. */
  lemma RowsOfMatch(history: seq<HistoryRow>, sessionId: SessionId)
    ensures forall x :: x in RowsOf(history, sessionId) ==> x in history && (sessionId == "" || x.sessionId == sessionId)
  {
    var rows := RowsOf(history, sessionId);
    forall x | x in rows ensures x in history && (sessionId == "" || x.sessionId == sessionId) {
      assert x in multiset(rows);
    }
  }

  /** Newest-first rows read backwards are oldest first. */
  lemma ReversedIsAscending(top: seq<HistoryRow>)
    requires SortedBy(top, NewestFirst)
    ensures forall i, j :: 0 <= i < j < |top| ==> Reversed(top)[i].time <= Reversed(top)[j].time
  {
    var r := Reversed(top);
    forall i, j | 0 <= i < j < |top| ensures r[i].time <= r[j].time {
      assert NewestFirst(top[|top| - 1 - j]) <= NewestFirst(top[|top| - 1 - i]);
    }
  }

  /** The rows kept are rows of the input. */
  lemma CutMembers(desc: seq<HistoryRow>, k: nat)
    requires k <= |desc|
    ensures forall x :: x in Reversed(desc[..k]) ==> x in desc
  {
    var r := Reversed(desc[..k]);
    forall x | x in r ensures x in desc {
      var i :| 0 <= i < |r| && r[i] == x;
      assert x == desc[k - 1 - i];
    }
  }

  /** Every row before the cut is kept. */
  lemma CutPrefixKept(desc: seq<HistoryRow>, k: nat)
    requires k <= |desc|
    ensures forall t :: 0 <= t < k ==> desc[t] in Reversed(desc[..k])
  {
    var r := Reversed(desc[..k]);
    forall t | 0 <= t < k ensures desc[t] in r {
      assert r[k - 1 - t] == desc[t];
    }
  }

  /** A row after the cut is no newer than any row kept. */
  lemma CutOlder(desc: seq<HistoryRow>, k: nat, j: nat, i: nat)
    requires SortedBy(desc, NewestFirst) && k <= j < |desc| && i < k
    ensures desc[j].time <= Reversed(desc[..k])[i].time
  {
    assert Reversed(desc[..k])[i] == desc[k - 1 - i];
    assert NewestFirst(desc[k - 1 - i]) <= NewestFirst(desc[j]);
  }

  /** Cutting a newest-first sequence and reading it backwards leaves out no
      row newer than one kept. */
  lemma CutKeepsNewest(desc: seq<HistoryRow>, k: nat)
    requires SortedBy(desc, NewestFirst) && k <= |desc|
    ensures forall x :: x in Reversed(desc[..k]) ==> x in desc
    ensures forall x, i :: x in desc && x !in Reversed(desc[..k]) && 0 <= i < k ==> x.time <= Reversed(desc[..k])[i].time
  {
    CutMembers(desc, k);
    CutPrefixKept(desc, k);
    forall x, i | x in desc && x !in Reversed(desc[..k]) && 0 <= i < k ensures x.time <= Reversed(desc[..k])[i].time {
      var j :| 0 <= j < |desc| && desc[j] == x;
      CutOlder(desc, k, j, i);
    }
  }

  /** The query returns a selection of the matching rows, each at most as
      often as it matches, and all of them when the limit allows. */
  lemma HistoryQuerySelects(history: seq<HistoryRow>, sessionId: SessionId, limit: nat)
    ensures multiset(HistoryQuery(history, sessionId, limit)) <= multiset(RowsOf(history, sessionId))
    ensures limit >= |RowsOf(history, sessionId)| ==>
              multiset(HistoryQuery(history, sessionId, limit)) == multiset(RowsOf(history, sessionId))
  {
    var desc := SortBy(RowsOf(history, sessionId), NewestFirst);
    var k := Min(limit, |desc|);
    assert desc == desc[..k] + desc[k..];
  }

  /** The query returns `limit` rows, or all matching ones when there are
      fewer, all of the requested session, oldest first, and none of the
      matching rows left out is newer than one returned. */
  lemma HistoryQueryNewest(history: seq<HistoryRow>, sessionId: SessionId, limit: nat)
    ensures var rows, r := RowsOf(history, sessionId), HistoryQuery(history, sessionId, limit);
            && |r| == Min(limit, |rows|)
            && (forall x :: x in r ==> x in history && (sessionId == "" || x.sessionId == sessionId))
            && (forall i, j :: 0 <= i < j < |r| ==> r[i].time <= r[j].time)
            && (forall x, i :: x in rows && x !in r && 0 <= i < |r| ==> x.time <= r[i].time)
  {
    var rows := RowsOf(history, sessionId);
    var desc := SortBy(rows, NewestFirst);
    var k := Min(limit, |desc|);
    var r := Reversed(desc[..k]);
    SameElements(desc, rows);
    RowsOfMatch(history, sessionId);
    assert SortedBy(desc[..k], NewestFirst);
    ReversedIsAscending(desc[..k]);
    CutKeepsNewest(desc, k);
  }

  /** `getChatHistory`'s query: the newest `limit` matching rows, each as
      often as it matches at most (all of them when the limit allows), of the
      requested session, oldest first. */
  lemma HistoryQuerySpec(history: seq<HistoryRow>, sessionId: SessionId, limit: nat)
    ensures var rows, r := RowsOf(history, sessionId), HistoryQuery(history, sessionId, limit);
            && |r| == Min(limit, |rows|)
            && multiset(r) <= multiset(rows)
            && (limit >= |rows| ==> multiset(r) == multiset(rows))
            && (forall x :: x in r ==> x in history && (sessionId == "" || x.sessionId == sessionId))
            && (forall i, j :: 0 <= i < j < |r| ==> r[i].time <= r[j].time)
            && (forall x, i :: x in rows && x !in r && 0 <= i < |r| ==> x.time <= r[i].time)
  {
    HistoryQuerySelects(history, sessionId, limit);
    HistoryQueryNewest(history, sessionId, limit);
  }

  /** The backend as the client sees it. `configured` is false when the
      client could not be created (no URL or key). */
  class Backend {
    const configured: bool
    const webhookUrl: string
    var sessionState: map<SessionId, StateRow>
    var blocklist: map<SessionId, Option<UserId>>
    var history: seq<HistoryRow>
    var webhookCalls: seq<WebhookCall>
    var knowledge: seq<KbRow>
    var profiles: map<UserId, Profile>

    constructor(configured: bool, webhookUrl: string)
      ensures this.configured == configured && this.webhookUrl == webhookUrl
      ensures sessionState == map[] && blocklist == map[] && history == []
      ensures webhookCalls == [] && knowledge == [] && profiles == map[]
    {
      this.configured := configured;
      this.webhookUrl := webhookUrl;
      sessionState := map[];
      blocklist := map[];
      history := [];
      webhookCalls := [];
      knowledge := [];
      profiles := map[];
    }

    /** `getSessionStatus`: the stored row when one can be read; otherwise the
        default record, whose `session_id` is null for a falsy id. `ok` is
        false when the query errs or throws. */
    method GetSessionStatus(sessionId: SessionId, ok: bool, now: int) returns (r: SessionState)
      ensures !configured ==> r == Default(Some(sessionId), now)
      ensures configured && sessionId == "" ==> r == Default(None, now)
      ensures configured && sessionId != "" && (!ok || sessionId !in sessionState) ==> r == Default(Some(sessionId), now)
      ensures configured && sessionId != "" && ok && sessionId in sessionState ==>
                var row := sessionState[sessionId];
                r == SessionState(Some(sessionId), row.status, row.agentId, row.isPinned, row.lastUpdated)
      ensures r.sessionId.Some? ==> r.sessionId.value == sessionId
    {
      if !configured {
        return Default(Some(sessionId), now);
      }
      if sessionId == "" {
        return Default(None, now);
      }
      if !ok || sessionId !in sessionState {
        return Default(Some(sessionId), now);
      }
      var row := sessionState[sessionId];
      r := SessionState(Some(sessionId), row.status, row.agentId, row.isPinned, row.lastUpdated);
    }

    /** `getChatHistory`: null without a client or when the query errs or
        throws; otherwise the query's rows. */
    method GetChatHistory(sessionId: SessionId, limit: nat, ok: bool) returns (r: Option<seq<HistoryRow>>)
      ensures r.None? <==> !configured || !ok
      ensures r.Some? ==> r.value == HistoryQuery(history, sessionId, limit)
    {
      if !configured || !ok {
        return None;
      }
      r := Some(HistoryQuery(history, sessionId, limit));
    }

    /** The row an upsert of `status` and `agent_id` leaves: other columns of
        an existing row stay. */
    function Upserted(id: SessionId, status: Status, agentId: Option<UserId>, now: int): (row: StateRow)
      reads this
      ensures row.status == status && row.agentId == agentId && row.lastUpdated == now
      ensures id in sessionState ==> row.isPinned == sessionState[id].isPinned
      ensures id !in sessionState ==> row.isPinned == PinnedDefault
    {
      StateRow(status, agentId, if id in sessionState then sessionState[id].isPinned else PinnedDefault, now)
    }

    /** `updateSessionStatus`: an upsert keyed by session id that writes the
        given status and agent as they are. */
    method UpdateSessionStatus(sessionId: SessionId, status: Status, agentId: Option<UserId>, now: int, ok: bool)
      returns (success: bool)
      modifies this`sessionState
      ensures success <==> configured && ok
      ensures sessionState == if success then old(sessionState)[sessionId := old(Upserted(sessionId, status, agentId, now))]
                              else old(sessionState)
    {
      if !configured || !ok {
        return false;
      }
      sessionState := sessionState[sessionId := Upserted(sessionId, status, agentId, now)];
      success := true;
    }

    /** `setPinStatus`: an update of `is_pinned` on an existing row; a missing
        row is left missing and the call still succeeds. */
    method SetPinStatus(sessionId: SessionId, pinned: bool, now: int, ok: bool) returns (success: bool)
      modifies this`sessionState
      ensures success <==> configured && ok
      ensures sessionState == if success && sessionId in old(sessionState)
                              then old(sessionState)[sessionId := old(sessionState)[sessionId].(isPinned := pinned, lastUpdated := now)]
                              else old(sessionState)
    {
      if !configured || !ok {
        return false;
      }
      if sessionId in sessionState {
        sessionState := sessionState[sessionId := sessionState[sessionId].(isPinned := pinned, lastUpdated := now)];
      }
      success := true;
    }

    /** `archiveSession`: an existing row becomes archived, unassigned and unpinned. */
    method ArchiveSession(sessionId: SessionId, now: int, ok: bool) returns (success: bool)
      modifies this`sessionState
      ensures success <==> configured && ok
      ensures sessionState == if success && sessionId in old(sessionState)
                              then old(sessionState)[sessionId := StateRow(Archived, None, false, now)]
                              else old(sessionState)
    {
      if !configured || !ok {
        return false;
      }
      if sessionId in sessionState {
        sessionState := sessionState[sessionId := StateRow(Archived, None, false, now)];
      }
      success := true;
    }

    /** `unarchiveSession`: an existing row goes back to the bot, unassigned;
        its pin stays. */
    method UnarchiveSession(sessionId: SessionId, now: int, ok: bool) returns (success: bool)
      modifies this`sessionState
      ensures success <==> configured && ok
      ensures sessionState == if success && sessionId in old(sessionState)
                              then old(sessionState)[sessionId := StateRow(BotActive, None, old(sessionState)[sessionId].isPinned, now)]
                              else old(sessionState)
    {
      if !configured || !ok {
        return false;
      }
      if sessionId in sessionState {
        sessionState := sessionState[sessionId := sessionState[sessionId].(status := BotActive, agentId := None, lastUpdated := now)];
      }
      success := true;
    }

    /** `blockSession`: lists the session, where a unique violation means it
        already is, then upserts status blocked with the agent. Any other
        refusal of the insert ends the call with the status untouched. */
    method BlockSession(sessionId: SessionId, agentId: Option<UserId>, now: int, insert: InsertResult, updateOk: bool)
      returns (success: bool)
      modifies this`blocklist, this`sessionState
      ensures success <==> configured && (insert == Done || insert == Refused(UniqueViolation)) && updateOk
      ensures blocklist == if configured && insert == Done then old(blocklist)[sessionId := agentId] else old(blocklist)
      ensures sessionState == if success then old(sessionState)[sessionId := old(Upserted(sessionId, Blocked, agentId, now))]
                              else old(sessionState)
    {
      if !configured {
        return false;
      }
      match insert {
        case Done =>
          blocklist := blocklist[sessionId := agentId];
        case Refused(code) =>
          if code != UniqueViolation {
            return false;
          }
      }
      success := UpdateSessionStatus(sessionId, Blocked, agentId, now, updateOk);
    }

    /** `unblockSession`: removes the denylist entry first; when that fails
        nothing else happens, otherwise the session goes back to the bot with
        no agent. */
    method UnblockSession(sessionId: SessionId, now: int, deleteOk: bool, updateOk: bool) returns (success: bool)
      modifies this`blocklist, this`sessionState
      ensures success <==> configured && deleteOk && updateOk
      ensures blocklist == if configured && deleteOk then old(blocklist) - {sessionId} else old(blocklist)
      ensures sessionState == if success then old(sessionState)[sessionId := old(Upserted(sessionId, BotActive, None, now))]
                              else old(sessionState)
    {
      if !configured || !deleteOk {
        return false;
      }
      blocklist := blocklist - {sessionId};
      success := UpdateSessionStatus(sessionId, BotActive, None, now, updateOk);
    }

    /** `sendAgentMessageViaN8N`: the webhook configuration is checked first,
        then the client; the message is stored as an agent-sent 'ai' row
        before the webhook is called, so a rejecting or unreachable webhook
        leaves the row stored yet reports failure. `newId` is the id the
        database gives the row. */
    method SendAgentMessage(sessionId: SessionId, content: string, agentId: Option<UserId>, now: int,
                            insertOk: bool, newId: int, webhook: WebhookOutcome) returns (r: SendResult)
      modifies this`history, this`webhookCalls
      ensures !UsableWebhook(webhookUrl) ==> r == SendFailed(ConfigError)
      ensures UsableWebhook(webhookUrl) && !configured ==> r == SendFailed(ClientMissing)
      ensures UsableWebhook(webhookUrl) && configured && !insertOk ==> r == SendFailed(SaveFailed)
      ensures var stored := UsableWebhook(webhookUrl) && configured && insertOk;
              && history == old(history) + (if stored then [HistoryRow(newId, sessionId, Some(Payload(Some("ai"), Some(content))), now, Some(true), agentId, None)] else [])
              && webhookCalls == old(webhookCalls) + (if stored then [WebhookCall(sessionId, content, agentId)] else [])
              && (stored ==> r == match webhook
                                  case NetworkError => SendFailed(NetworkOrCode)
                                  case Responded(code) => if 200 <= code <= 299 then Sent(newId) else SendFailed(WebhookRejected(code)))
    {
      if !UsableWebhook(webhookUrl) {
        return SendFailed(ConfigError);
      }
      if !configured {
        return SendFailed(ClientMissing);
      }
      if !insertOk {
        return SendFailed(SaveFailed);
      }
      history := history + [HistoryRow(newId, sessionId, Some(Payload(Some("ai"), Some(content))), now, Some(true), agentId, None)];
      webhookCalls := webhookCalls + [WebhookCall(sessionId, content, agentId)];
      match webhook {
        case NetworkError =>
          r := SendFailed(NetworkOrCode);
        case Responded(code) =>
          if !(200 <= code <= 299) {
            return SendFailed(WebhookRejected(code));
          }
          r := Sent(newId);
      }
    }

    /** `saveToKnowledgeBase`: one inserted row on success. */
    method SaveToKnowledgeBase(question: string, answer: string, agentId: Option<UserId>,
                               messageId: Option<int>, sessionId: Option<SessionId>, ok: bool) returns (success: bool)
      modifies this`knowledge
      ensures success <==> configured && ok
      ensures knowledge == old(knowledge) + (if success then [KbRow(question, answer, agentId, messageId, sessionId)] else [])
    {
      if !configured || !ok {
        return false;
      }
      knowledge := knowledge + [KbRow(question, answer, agentId, messageId, sessionId)];
      success := true;
    }

    /** `updateUserPasswordChangeFlag`: refused for a falsy user or without a
        client; otherwise an update of the user's existing profile row, which
        succeeds even when there is none. */
    method UpdateUserPasswordChangeFlag(userId: Option<UserId>, needsChange: bool, now: int, ok: bool)
      returns (success: bool)
      modifies this`profiles
      ensures success <==> KnownUser(userId) && configured && ok
      ensures profiles == if success && userId.value in old(profiles)
                          then old(profiles)[userId.value := Profile(needsChange, now)]
                          else old(profiles)
    {
      if !KnownUser(userId) || !configured || !ok {
        return false;
      }
      if userId.value in profiles {
        profiles := profiles[userId.value := Profile(needsChange, now)];
      }
      success := true;
    }
  }
}
