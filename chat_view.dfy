/** The conversation view: which controls it offers for a status, the reply,
    take/return, block/unblock and save-to-knowledge-base handlers, and the
    search for the question that goes with a saved answer. */
module ChatView {
  import opened Sessions
  import opened Messages
  import opened Dashboard

  // ---------------------------------------------------------------------------
  // Trimming
  // ---------------------------------------------------------------------------

  /** The white space and line terminators `String.prototype.trim` removes. */
  predicate IsSpace(c: char)
  {
    || c == ' ' || c == '\t' || c == '\n' || c == '\r' || c == '\U{000B}' || c == '\U{000C}'
    || c == '\U{00A0}' || c == '\U{1680}' || ('\U{2000}' <= c <= '\U{200A}')
    || c == '\U{2028}' || c == '\U{2029}' || c == '\U{202F}' || c == '\U{205F}'
    || c == '\U{3000}' || c == '\U{FEFF}'
  }

  predicate AllSpace(s: string)
  {
    forall i :: 0 <= i < |s| ==> IsSpace(s[i])
  }

  /** Drops the leading white space. */
  function TrimStart(s: string): (r: string)
    ensures |r| <= |s| && r == s[|s| - |r|..]
    ensures AllSpace(s[..|s| - |r|])
    ensures r == [] || !IsSpace(r[0])
    decreases |s|
  {
    if s != [] && IsSpace(s[0]) then
      var r := TrimStart(s[1..]);
      assert s[..|s| - |r|] == [s[0]] + s[1..][..|s| - 1 - |r|];
      r
    else s
  }

  /** Drops the trailing white space. */
  function TrimEnd(s: string): (r: string)
    ensures |r| <= |s| && r == s[..|r|]
    ensures AllSpace(s[|r|..])
    ensures r == [] || !IsSpace(r[|r| - 1])
    decreases |s|
  {
    if s != [] && IsSpace(s[|s| - 1]) then
      var r := TrimEnd(s[..|s| - 1]);
      assert s[|r|..] == s[..|s| - 1][|r|..] + [s[|s| - 1]];
      r
    else s
  }

  /** `s.trim()` */
  function Trim(s: string): (r: string)
  {
    TrimEnd(TrimStart(s))
  }

  /** Where the trimmed text sits in the input. */
  lemma TrimBounds(s: string) returns (i: nat, j: nat)
    ensures i <= j <= |s| && Trim(s) == s[i..j]
    ensures AllSpace(s[..i]) && AllSpace(s[j..])
  {
    var a := TrimStart(s);
    var b := TrimEnd(a);
    i, j := |s| - |a|, |s| - |a| + |b|;
    assert s[j..] == a[|b|..];
  }

  /** The trimmed text neither starts nor ends with white space. */
  lemma TrimEnds(s: string)
    ensures Trim(s) == [] || (!IsSpace(Trim(s)[0]) && !IsSpace(Trim(s)[|Trim(s)| - 1]))
  {
    var a := TrimStart(s);
    var b := TrimEnd(a);
    if b != [] {
      assert a[0] == b[0];
    }
  }

  /** The trimmed text is empty exactly when the input is all white space. */
  lemma TrimEmpty(s: string)
    ensures Trim(s) == [] <==> AllSpace(s)
  {
    var i, j := TrimBounds(s);
    TrimEnds(s);
    if Trim(s) == [] {
      assert s == s[..i] + s[j..];
    } else {
      assert s[i] == Trim(s)[0];
    }
  }

  /** The trimmed text is the input minus white space at both ends; it is
      empty exactly when the input is all white space. */
  lemma TrimSpec(s: string)
    ensures exists i, j :: 0 <= i <= j <= |s| && Trim(s) == s[i..j] && AllSpace(s[..i]) && AllSpace(s[j..])
    ensures Trim(s) == [] || (!IsSpace(Trim(s)[0]) && !IsSpace(Trim(s)[|Trim(s)| - 1]))
    ensures Trim(s) == [] <==> AllSpace(s)
  {
    var i, j := TrimBounds(s);
    TrimEnds(s);
    TrimEmpty(s);
  }

  /** Trimming again changes nothing. */
  lemma TrimIdempotent(s: string)
    ensures Trim(Trim(s)) == Trim(s)
  {
    var t := Trim(s);
    TrimSpec(s);
    if t != [] {
      assert TrimStart(t) == t;
      assert TrimEnd(t) == t;
    }
  }

  // ---------------------------------------------------------------------------
  // What the view offers
  // ---------------------------------------------------------------------------

  /** The reply form of the view. */
  predicate ShowsReplyForm(status: Status)
  {
    status != Blocked && status != Archived && (status == AgentActive || status == NeedsAgent)
  }

  /** The buttons of the session controls. */
  datatype Controls = Controls(returnToBot: bool, take: bool, block: bool, unblock: bool)

  function ControlsFor(status: Status): (c: Controls)
  {
    var open := status != Blocked && status != Archived;
    Controls(
      open && status == AgentActive,
      open && status != AgentActive && (status == BotActive || status == NeedsAgent),
      open,
      !open && status == Blocked && status != Archived)
  }

  /** The form is there only while an agent has or is asked to take the chat;
      a blocked chat offers only unblocking, an archived one nothing, and every
      other status offers blocking plus exactly one of take and return. */
  lemma OfferedControls(status: Status)
    ensures ShowsReplyForm(status) <==> status == AgentActive || status == NeedsAgent
    ensures status == Blocked ==> ControlsFor(status) == Controls(false, false, false, true)
    ensures status == Archived ==> ControlsFor(status) == Controls(false, false, false, false)
    ensures status !in {Blocked, Archived} ==>
              && ControlsFor(status).block && !ControlsFor(status).unblock
              && (ControlsFor(status).returnToBot <==> !ControlsFor(status).take)
              && (ControlsFor(status).returnToBot <==> status == AgentActive)
  {
  }

  // ---------------------------------------------------------------------------
  // The question that goes with an answer
  // ---------------------------------------------------------------------------

  /** `type === 'human' && !isAgentMessage` */
  predicate IsUserQuestion(m: Message)
  {
    m.kind == "human" && m.isAgentMessage != Present(true)
  }

  /** The backward loop of `handleSaveToKB`: the nearest message before
      `index` written by the user, if there is one. */
  method FindQuestion(messages: seq<Message>, index: nat) returns (q: Option<nat>)
    requires index <= |messages|
    ensures q.Some? ==> && q.value < index && IsUserQuestion(messages[q.value])
                        && forall j :: q.value < j < index ==> !IsUserQuestion(messages[j])
    ensures q == None ==> forall j :: 0 <= j < index ==> !IsUserQuestion(messages[j])
  {
    var i := index;
    while i > 0
      invariant 0 <= i <= index
      invariant forall j :: i <= j < index ==> !IsUserQuestion(messages[j])
    {
      if IsUserQuestion(messages[i - 1]) {
        return Some(i - 1);
      }
      i := i - 1;
    }
    return None;
  }

  /** What is sent to the knowledge base. */
  datatype KbEntry = KbEntry(question: string, answer: string, agent: UserId, answerId: int, sessionId: SessionId)

  /** The state of one conversation view. It writes the dashboard's status map
      through the setter it is handed; `status` arguments are the view's
      `currentSessionStatus` property as it was rendered. */
  class ChatViewState {
    var input: string
    var saved: set<int>
    const store: DashboardStore

    constructor(store: DashboardStore)
      ensures input == "" && saved == {} && this.store == store
    {
      input := "";
      saved := {};
      this.store := store;
    }

    /** Typing in the reply box. */
    method Type(text: string)
      modifies this`input
      ensures input == text
    {
      input := text;
    }

    /** The effect that runs when the view shows another session. */
    method SessionChanged()
      modifies this`input, this`saved
      ensures input == "" && saved == {}
    {
      input := "";
      saved := {};
    }

    /** `handleSendReply` up to the backend call: nothing without a user or a
        session, for a blocked or archived chat, or for a blank input;
        otherwise the trimmed text is what is sent and the box is cleared. */
    method BeginSendReply(user: Option<UserId>, sessionId: SessionId, status: Status) returns (sent: Option<string>)
      modifies this`input
      ensures var ok := KnownUser(user) && sessionId != "" && status != Blocked && status != Archived
                        && Trim(old(input)) != "";
              && (ok ==> sent == Some(Trim(old(input))) && input == "")
              && (!ok ==> sent == None && input == old(input))
    {
      if !KnownUser(user) || sessionId == "" || status == Blocked || status == Archived || Trim(input) == "" {
        return None;
      }
      sent := Some(Trim(input));
      input := "";
    }

    /** The rest of `handleSendReply`: after a successful send, a session not
        already agent_active becomes agent_active with this agent. */
    method CompleteSendReply(user: UserId, sessionId: SessionId, status: Status, success: bool)
      modifies store`statuses
      ensures store.statuses == if success && status != AgentActive
                                then Patch(old(store.statuses), sessionId, StatusAgentPatch(AgentActive, Some(user)))
                                else old(store.statuses)
    {
      if success && status != AgentActive {
        store.statuses := Patch(store.statuses, sessionId, StatusAgentPatch(AgentActive, Some(user)));
      }
    }

    /** `handleChangeSessionState`: refused without a user or session and for
        a blocked or archived chat; otherwise the new status is written with
        this agent exactly when it is agent_active. A failed backend write is
        not reverted, so there is no second half. */
    method ChangeSessionState(user: Option<UserId>, sessionId: SessionId, status: Status, newStatus: Status)
      returns (agent: Option<Option<UserId>>)
      modifies store`statuses
      ensures var ok := KnownUser(user) && sessionId != "" && status != Blocked && status != Archived;
              && (ok ==> && agent == Some(if newStatus == AgentActive then user else None)
                         && store.statuses == Patch(old(store.statuses), sessionId, StatusAgentPatch(newStatus, agent.value)))
              && (!ok ==> agent == None && store.statuses == old(store.statuses))
    {
      if !KnownUser(user) || sessionId == "" || status == Blocked || status == Archived {
        return None;
      }
      var who := if newStatus == AgentActive then user else None;
      agent := Some(who);
      store.statuses := Patch(store.statuses, sessionId, StatusAgentPatch(newStatus, who));
    }

    /** `handleBlockSession` up to the backend call: refused without a user or
        session, for an archived chat, or when the agent does not confirm;
        otherwise blocked with this agent. */
    method BeginBlock(user: Option<UserId>, sessionId: SessionId, status: Status, confirmed: bool) returns (started: bool)
      modifies store`statuses
      ensures started <==> KnownUser(user) && sessionId != "" && status != Archived && confirmed
      ensures started ==> store.statuses == Patch(old(store.statuses), sessionId, StatusAgentPatch(Blocked, user))
      ensures !started ==> store.statuses == old(store.statuses)
    {
      if !KnownUser(user) || sessionId == "" || status == Archived || !confirmed {
        return false;
      }
      store.statuses := Patch(store.statuses, sessionId, StatusAgentPatch(Blocked, user));
      started := true;
    }

    /** The rest of `handleBlockSession`: on failure only the status goes back
        to the rendered one; the agent stays. */
    method CompleteBlock(sessionId: SessionId, status: Status, success: bool)
      modifies store`statuses
      ensures store.statuses == if success then old(store.statuses)
                                else Patch(old(store.statuses), sessionId, StatusPatch(status))
    {
      if !success {
        store.statuses := Patch(store.statuses, sessionId, StatusPatch(status));
      }
    }

    /** `handleUnblockSession` up to the backend call: refused without a user
        or session or for an archived chat; otherwise bot_active with no agent. */
    method BeginUnblock(user: Option<UserId>, sessionId: SessionId, status: Status) returns (started: bool)
      modifies store`statuses
      ensures started <==> KnownUser(user) && sessionId != "" && status != Archived
      ensures started ==> store.statuses == Patch(old(store.statuses), sessionId, StatusAgentPatch(BotActive, None))
      ensures !started ==> store.statuses == old(store.statuses)
    {
      if !KnownUser(user) || sessionId == "" || status == Archived {
        return false;
      }
      store.statuses := Patch(store.statuses, sessionId, StatusAgentPatch(BotActive, None));
      started := true;
    }

    /** The rest of `handleUnblockSession`: on failure the status is blocked again. */
    method CompleteUnblock(sessionId: SessionId, success: bool)
      modifies store`statuses
      ensures store.statuses == if success then old(store.statuses)
                                else Patch(old(store.statuses), sessionId, StatusPatch(Blocked))
    {
      if !success {
        store.statuses := Patch(store.statuses, sessionId, StatusPatch(Blocked));
      }
    }

    /** `handleSaveToKB` up to the backend call for the message at `index`:
        nothing without a user, for the first message, for an answer already
        saved, for an archived or blocked chat, when no earlier user message
        exists, or when the agent does not confirm. Otherwise the entry pairs
        the nearest earlier user message with the answer. */
    method BeginSaveToKB(user: Option<UserId>, sessionId: SessionId, status: Status,
                         messages: seq<Message>, index: nat, confirmed: bool) returns (entry: Option<KbEntry>)
      requires index < |messages|
      ensures entry.Some? ==>
                && KnownUser(user) && index != 0 && messages[index].id !in saved
                && status != Archived && status != Blocked && confirmed
                && entry.value.answer == messages[index].content && entry.value.answerId == messages[index].id
                && entry.value.agent == user.value && entry.value.sessionId == sessionId
                && exists q :: && 0 <= q < index && IsUserQuestion(messages[q])
                               && entry.value.question == messages[q].content
                               && forall j :: q < j < index ==> !IsUserQuestion(messages[j])
      ensures entry == None ==>
                || !KnownUser(user) || index == 0 || messages[index].id in saved
                || status == Archived || status == Blocked || !confirmed
                || forall j :: 0 <= j < index ==> !IsUserQuestion(messages[j])
    {
      var answer := messages[index];
      if !KnownUser(user) || index == 0 || answer.id in saved || status == Archived || status == Blocked {
        return None;
      }
      var q := FindQuestion(messages, index);
      if q == None || !confirmed {
        return None;
      }
      entry := Some(KbEntry(messages[q.value].content, answer.content, user.value, answer.id, sessionId));
    }

    /** The rest of `handleSaveToKB`: a successful save marks the answer. */
    method CompleteSaveToKB(answerId: int, success: bool)
      modifies this`saved
      ensures saved == if success then old(saved) + {answerId} else old(saved)
    {
      if success {
        saved := saved + {answerId};
      }
    }
  }
}
