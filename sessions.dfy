/** Session status records as the dashboard holds them: partial objects keyed by
    session id, built by spreading one object over another. */
module Sessions {

  datatype Option<+T> = None | Some(value: T)

  /** One key of a JavaScript object: either missing or present with a value. */
  datatype Field<+T> = Absent | Present(value: T) {
    /** `patch ?? this` for one key of an object spread `{ ...this, ...patch }`. */
    function Over(patch: Field<T>): (r: Field<T>)
      ensures patch.Present? ==> r == patch
      ensures patch.Absent? ==> r == this
    {
      if patch.Present? then patch else this
    }
  }

  type SessionId = string
  type UserId = string

  /** A user id that is there and truthy: `null`, `undefined` and "" are not. */
  predicate KnownUser(user: Option<UserId>)
  {
    user.Some? && user.value != ""
  }

  /** The five values of `SESSION_STATUS`. */
  datatype Status = BotActive | AgentActive | NeedsAgent | Blocked | Archived

  /** A row of `chat_sessions_state` as the client holds it. Every key may be
      missing, because the client builds entries with `{ ...(prev[id] || {}), ... }`.
      `agentId` is present-and-null (`Present(None)`) or present with a user. */
  datatype StatusRecord = StatusRecord(
    sessionId: Field<Option<SessionId>>,
    status: Field<Status>,
    agentId: Field<Option<UserId>>,
    isPinned: Field<bool>,
    lastUpdated: Field<int>)

  /** `{}` */
  const Empty := StatusRecord(Absent, Absent, Absent, Absent, Absent)

  /** `{ ...base, ...patch }`: the patch's keys win, the base keeps the rest. */
  function Merge(base: StatusRecord, patch: StatusRecord): (r: StatusRecord)
    ensures patch.status.Present? ==> r.status == patch.status
    ensures patch.status.Absent? ==> r.status == base.status
    ensures patch.agentId.Present? ==> r.agentId == patch.agentId
    ensures patch.agentId.Absent? ==> r.agentId == base.agentId
    ensures patch.isPinned.Present? ==> r.isPinned == patch.isPinned
    ensures patch.isPinned.Absent? ==> r.isPinned == base.isPinned
    ensures patch.sessionId.Present? ==> r.sessionId == patch.sessionId
    ensures patch.sessionId.Absent? ==> r.sessionId == base.sessionId
    ensures patch.lastUpdated.Present? ==> r.lastUpdated == patch.lastUpdated
    ensures patch.lastUpdated.Absent? ==> r.lastUpdated == base.lastUpdated
  {
    StatusRecord(
      base.sessionId.Over(patch.sessionId),
      base.status.Over(patch.status),
      base.agentId.Over(patch.agentId),
      base.isPinned.Over(patch.isPinned),
      base.lastUpdated.Over(patch.lastUpdated))
  }

  /** Spreading the same patch twice is the same as spreading it once. */
  lemma MergeIdempotent(base: StatusRecord, patch: StatusRecord)
    ensures Merge(Merge(base, patch), patch) == Merge(base, patch)
  {
  }

  /** Spreading `{}` changes nothing, and a patch that mentions every key replaces. */
  lemma MergeEmptyAndFull(base: StatusRecord, patch: StatusRecord)
    ensures Merge(base, Empty) == base
    ensures (&& patch.sessionId.Present? && patch.status.Present? && patch.agentId.Present?
             && patch.isPinned.Present? && patch.lastUpdated.Present?) ==> Merge(base, patch) == patch
  {
  }

  /** `prev[id] || {}` */
  function EntryOrEmpty(statuses: map<SessionId, StatusRecord>, id: SessionId): (r: StatusRecord)
    ensures id in statuses ==> r == statuses[id]
    ensures id !in statuses ==> r == Empty
  {
    if id in statuses then statuses[id] else Empty
  }

  /** `statuses[id]?.status`: missing when there is no entry or it has no status key. */
  function StatusIn(statuses: map<SessionId, StatusRecord>, id: SessionId): (r: Field<Status>)
    ensures r.Present? <==> id in statuses && statuses[id].status.Present?
    ensures r.Present? ==> r == statuses[id].status
  {
    if id in statuses then statuses[id].status else Absent
  }

  /** `status === 'archived' || status === 'blocked'` for a possibly missing status. */
  predicate ArchivedOrBlocked(s: Field<Status>)
  {
    s == Present(Archived) || s == Present(Blocked)
  }

  /** `{ ...(prev[id] || {}), ...patch }` written back at `id`. */
  function Patch(statuses: map<SessionId, StatusRecord>, id: SessionId, patch: StatusRecord): (r: map<SessionId, StatusRecord>)
    ensures r.Keys == statuses.Keys + {id}
    ensures r[id] == Merge(EntryOrEmpty(statuses, id), patch)
    ensures forall other :: other in statuses && other != id ==> r[other] == statuses[other]
  {
    statuses[id := Merge(EntryOrEmpty(statuses, id), patch)]
  }

  /** A patch that writes only `status`. */
  function StatusPatch(s: Status): StatusRecord
  {
    Empty.(status := Present(s))
  }

  /** A patch that writes `status` and `agent_id`. */
  function StatusAgentPatch(s: Status, agent: Option<UserId>): StatusRecord
  {
    Empty.(status := Present(s), agentId := Present(agent))
  }
}
