/** The agent dashboard: the conversations, the session-status map, unread
    counters, selection and context menu, and the handlers that change them. */
module Dashboard {
  import opened Sessions
  import opened Messages
  import opened Grouping
  import opened Interactions

  // ---------------------------------------------------------------------------
  // View filter
  // ---------------------------------------------------------------------------

  const ActiveView := "active"
  const ArchivedView := "archived"
  const BlockedView := "blocked"

  /** `chatViewFilter || 'active'`; a missing filter is "". */
  function EffectiveFilter(filter: string): (f: string)
    ensures filter != "" ==> f == filter
    ensures filter == "" ==> f == ActiveView
  {
    if filter == "" then ActiveView else filter
  }

  /** The predicate of `visibleSessions` for one session's (possibly missing)
      status. */
  predicate Shows(filter: string, status: Field<Status>)
  {
    if filter == ArchivedView then status == Present(Archived)
    else if filter == BlockedView then status == Present(Blocked)
    else !ArchivedOrBlocked(status)
  }

  /** Every status belongs to exactly one of the three views, and any other
      filter shows what "active" shows. */
  lemma ViewsPartition(status: Field<Status>, other: string)
    requires other != ArchivedView && other != BlockedView
    ensures Shows(ActiveView, status) <==> !Shows(ArchivedView, status) && !Shows(BlockedView, status)
    ensures !(Shows(ArchivedView, status) && Shows(BlockedView, status))
    ensures Shows(other, status) == Shows(ActiveView, status)
    ensures status == Absent || status == Present(NeedsAgent) ==> Shows(ActiveView, status)
  {
  }

  /** `visibleSessions`: the grouped sessions, in their order, that the view shows. */
  function VisibleSessions(keys: seq<SessionId>, statuses: map<SessionId, StatusRecord>, filter: string): (r: seq<SessionId>)
    ensures forall id :: id in r <==> id in keys && Shows(EffectiveFilter(filter), StatusIn(statuses, id))
    ensures |r| <= |keys|
    decreases |keys|
  {
    if keys == [] then []
    else
      var init, last := keys[..|keys| - 1], keys[|keys| - 1];
      assert keys == init + [last];
      VisibleSessions(init, statuses, filter)
        + (if Shows(EffectiveFilter(filter), StatusIn(statuses, last)) then [last] else [])
  }

  /** The visible sessions are taken from the grouped ones in order: `idx`
      gives, for each visible session, its strictly increasing position in
      the grouped keys. */
  lemma {:induction false} VisibleIsSubsequence(keys: seq<SessionId>, statuses: map<SessionId, StatusRecord>, filter: string)
    returns (idx: seq<nat>)
    ensures |idx| == |VisibleSessions(keys, statuses, filter)|
    ensures forall k :: 0 <= k < |idx| ==> idx[k] < |keys| && VisibleSessions(keys, statuses, filter)[k] == keys[idx[k]]
    ensures forall k, l :: 0 <= k < l < |idx| ==> idx[k] < idx[l]
    decreases |keys|
  {
    if keys == [] {
      idx := [];
    } else {
      var init, last := keys[..|keys| - 1], keys[|keys| - 1];
      var prefix := VisibleIsSubsequence(init, statuses, filter);
      if Shows(EffectiveFilter(filter), StatusIn(statuses, last)) {
        idx := prefix + [|keys| - 1];
      } else {
        idx := prefix;
      }
    }
  }

  /** Filtering keeps any ranking of the keys: if the grouped keys are in
      non-increasing `rank`, so are the visible ones. */
  lemma VisibleKeepsRanking(keys: seq<SessionId>, statuses: map<SessionId, StatusRecord>, filter: string, rank: SessionId -> int)
    requires forall i, j :: 0 <= i < j < |keys| ==> rank(keys[i]) >= rank(keys[j])
    ensures var r := VisibleSessions(keys, statuses, filter);
            forall i, j :: 0 <= i < j < |r| ==> rank(r[i]) >= rank(r[j])
  {
    var r := VisibleSessions(keys, statuses, filter);
    var idx := VisibleIsSubsequence(keys, statuses, filter);
    forall i, j | 0 <= i < j < |r| ensures rank(r[i]) >= rank(r[j]) {
      assert r[i] == keys[idx[i]] && r[j] == keys[idx[j]] && idx[i] < idx[j];
    }
  }

  /** The list shows the sessions of a grouping most recent first: the
      recency ranking of the grouper reaches the filtered list. */
  lemma VisibleByRecency(ms: seq<Message>, r: seq<SessionGroup>, statuses: map<SessionId, StatusRecord>, filter: string)
    requires GroupingOf(ms, r)
    ensures var v := VisibleSessions(SessionKeys(r), statuses, filter);
            forall i, j :: 0 <= i < j < |v| ==>
              LastTime(Only(SortBy(ms, TimeOf), v[i])) >= LastTime(Only(SortBy(ms, TimeOf), v[j]))
  {
    var keys := SessionKeys(r);
    var rank := (id: SessionId) => LastTime(Only(SortBy(ms, TimeOf), id));
    forall i, j | 0 <= i < j < |keys| ensures rank(keys[i]) >= rank(keys[j]) {
      assert rank(keys[i]) == LastTime(r[i].messages) && rank(keys[j]) == LastTime(r[j].messages);
    }
    VisibleKeepsRanking(keys, statuses, filter, rank);
  }

  /** `shouldShowChatView`: only the three known views show a conversation. */
  function ShowsChatView(selected: Option<SessionId>, statuses: map<SessionId, StatusRecord>, filter: string): (r: bool)
    ensures r <==> && selected.Some? && selected.value in statuses
                   && EffectiveFilter(filter) in {ActiveView, ArchivedView, BlockedView}
                   && Shows(EffectiveFilter(filter), statuses[selected.value].status)
  {
    var f := EffectiveFilter(filter);
    && selected.Some? && selected.value in statuses
    && var s := statuses[selected.value].status;
       || (f == ActiveView && s != Present(Archived) && s != Present(Blocked))
       || (f == ArchivedView && s == Present(Archived))
       || (f == BlockedView && s == Present(Blocked))
  }

  /** The status handed to the conversation view, and the one the archive
      revert writes back:
      `sessionStatuses[selected]?.status || 'bot_active'`. */
  function ViewStatus(statuses: map<SessionId, StatusRecord>, selected: SessionId): (s: Status)
    ensures StatusIn(statuses, selected).Present? ==> s == StatusIn(statuses, selected).value
    ensures StatusIn(statuses, selected).Absent? ==> s == BotActive
  {
    if StatusIn(statuses, selected).Present? then StatusIn(statuses, selected).value else BotActive
  }

  /** The guards of `handleSelectSession` for a session that has an entry. */
  predicate SelectionAllowed(filter: string, status: Field<Status>)
  {
    && !(filter == ActiveView && ArchivedOrBlocked(status))
    && !(filter == ArchivedView && status != Present(Archived))
    && !(filter == BlockedView && status != Present(Blocked))
  }

  /** For the three views the selection guard is the list's own filter; any
      other filter lets every session with an entry be selected. */
  lemma SelectionMatchesView(filter: string, status: Field<Status>)
    ensures filter in {ActiveView, ArchivedView, BlockedView} ==> (SelectionAllowed(filter, status) <==> Shows(filter, status))
    ensures filter !in {ActiveView, ArchivedView, BlockedView} ==> SelectionAllowed(filter, status)
  {
  }

  // ---------------------------------------------------------------------------
  // Unread counters
  // ---------------------------------------------------------------------------

  /** `prev[id] || 0` */
  function Count(unread: map<SessionId, nat>, id: SessionId): nat
  {
    if id in unread then unread[id] else 0
  }

  /** The counter update of the INSERT callback: one more for the message's
      session unless it is the selected one or it is archived or blocked. */
  function BumpUnread(unread: map<SessionId, nat>, id: SessionId, selected: Option<SessionId>, status: Field<Status>): (r: map<SessionId, nat>)
    ensures selected != Some(id) && !ArchivedOrBlocked(status) ==> Count(r, id) == Count(unread, id) + 1
    ensures selected == Some(id) || ArchivedOrBlocked(status) ==> r == unread
    ensures forall other :: other != id ==> Count(r, other) == Count(unread, other)
    ensures r.Keys <= unread.Keys + {id}
  {
    if selected != Some(id) && !ArchivedOrBlocked(status) then unread[id := Count(unread, id) + 1] else unread
  }

  // ---------------------------------------------------------------------------
  // Writes to the status map
  // ---------------------------------------------------------------------------

  /** `{ ...prev, [id]: { ...prev[id], is_pinned: v } }`. A pin restored to a
      missing value is written as a missing key: every reader treats an
      `undefined` pin and a missing one alike. */
  function SetPinned(statuses: map<SessionId, StatusRecord>, id: SessionId, v: Field<bool>): (r: map<SessionId, StatusRecord>)
    ensures r.Keys == statuses.Keys + {id}
    ensures r[id] == EntryOrEmpty(statuses, id).(isPinned := v)
    ensures forall other :: other in statuses && other != id ==> r[other] == statuses[other]
  {
    statuses[id := EntryOrEmpty(statuses, id).(isPinned := v)]
  }

  /** Flipping the pin and then writing back the remembered pin gives back the
      map it started from. */
  lemma PinRevertRestores(statuses: map<SessionId, StatusRecord>, id: SessionId, flipped: bool)
    requires id in statuses
    ensures SetPinned(SetPinned(statuses, id, Present(flipped)), id, statuses[id].isPinned) == statuses
  {
    var r := SetPinned(SetPinned(statuses, id, Present(flipped)), id, statuses[id].isPinned);
    assert r.Keys == statuses.Keys;
    assert forall k :: k in r ==> r[k] == statuses[k];
  }

  /** `!(is_pinned || false)` */
  function Flipped(p: Field<bool>): (b: bool)
    ensures b <==> p != Present(true)
  {
    !(p.Present? && p.value)
  }

  /** The archive revert writes `statusesRef.current[id]?.status || 'bot_active'`,
      which is `ViewStatus` of the ref. It reads the ref when the call fails,
      not a copy taken before the optimistic write. If no render happened in
      between, the archive and its revert restore the session's earlier entry
      and leave the others alone, except that a missing status comes back as
      bot_active; once the optimistic write has been rendered, the revert
      writes archived again. */
  lemma ArchiveRevertDependsOnRender(before: map<SessionId, StatusRecord>, id: SessionId)
    ensures var archived := Patch(before, id, StatusPatch(Archived));
            var reverted := Patch(archived, id, StatusPatch(ViewStatus(before, id)));
            && reverted.Keys == before.Keys + {id}
            && reverted[id] == EntryOrEmpty(before, id).(status := if StatusIn(before, id).Present? then StatusIn(before, id) else Present(BotActive))
            && forall other :: other in before && other != id ==> reverted[other] == before[other]
    ensures var archived := Patch(before, id, StatusPatch(Archived));
            Patch(archived, id, StatusPatch(ViewStatus(archived, id)))[id].status == Present(Archived)
  {
  }

  /** A status event as the realtime channel delivers it. */
  datatype StatusEvent = StatusEvent(isDelete: bool, newRow: Option<StatusRecord>, oldSessionId: Option<SessionId>)

  /** `payload.new?.session_id || payload.old?.session_id`, with "" falsy. */
  function ChangedId(e: StatusEvent): (r: Option<SessionId>)
    ensures r.Some? ==> r.value != ""
    ensures r == None <==>
              (e.newRow == None || e.newRow.value.sessionId.Absent? || e.newRow.value.sessionId.value in {None, Some("")})
              && (e.oldSessionId == None || e.oldSessionId == Some(""))
  {
    if e.newRow.Some? && e.newRow.value.sessionId.Present? && e.newRow.value.sessionId.value.Some?
       && e.newRow.value.sessionId.value.value != ""
    then e.newRow.value.sessionId.value
    else if e.oldSessionId.Some? && e.oldSessionId.value != "" then e.oldSessionId
    else None
  }

  /** Every shown message went through the formatter. */
  ghost predicate AllFormatted(r: seq<SessionGroup>)
  {
    forall m :: m in multiset(Flatten(r)) ==> m.isAgentMessage.Present?
  }

  /** What the history INSERT callback makes of the conversations: the
      grouping of every shown record except those with the new row's id, then
      the new record. The new record is the only one with its id afterwards,
      and ids stay unique if they were. */
  ghost predicate Inserted(prev: seq<SessionGroup>, row: HistoryRow, r: seq<SessionGroup>)
  {
    && GroupingOf(WithoutId(Flatten(prev), row.id) + [Format(row)], r)
    && multiset(Flatten(r)) == multiset(WithoutId(Flatten(prev), row.id)) + multiset{Format(row)}
    && (forall x :: x in multiset(Flatten(r)) && x.id == row.id ==> x == Format(row))
    && multiset(Flatten(r))[Format(row)] == 1
    && (UniqueIds(multiset(Flatten(prev))) ==> UniqueIds(multiset(Flatten(r))))
  }

  /** The regrouping of the history INSERT callback. */
  method Regroup(prev: seq<SessionGroup>, row: HistoryRow) returns (r: seq<SessionGroup>)
    requires AllFormatted(prev)
    ensures AllFormatted(r) && Inserted(prev, row, r)
  {
    var m := Format(row);
    var kept := WithoutId(Flatten(prev), m.id);
    assert forall x :: x in kept ==> x in multiset(Flatten(prev));
    NormalizedFormatted(kept + [m]);
    ReplaceById(Flatten(prev), m);
    r := Process(AsItems(kept + [m]));
  }

  /** What the initial load makes of the history rows, nothing standing for
      the `null` of a failed query. */
  ghost predicate LoadedFrom(rows: Option<seq<HistoryRow>>, r: seq<SessionGroup>)
  {
    GroupingOf(Normalized(RawItems(if rows.Some? then rows.value else [])), r)
  }

  /** The grouping of the initial load. */
  method LoadHistory(rows: Option<seq<HistoryRow>>) returns (r: seq<SessionGroup>)
    ensures AllFormatted(r) && LoadedFrom(rows, r)
    ensures rows == None || rows == Some([]) ==> r == []
  {
    var items := RawItems(if rows.Some? then rows.value else []);
    r := Process(items);
    NormalizedAreFormatted(items);
  }

  /** The status map the initial load builds: one fetched record per session. */
  function Fetched(keys: seq<SessionId>, statusOf: SessionId -> StatusRecord): (m: map<SessionId, StatusRecord>)
    ensures m.Keys == set id | id in keys
    ensures forall id :: id in m ==> m[id] == statusOf(id)
  {
    map id | id in keys :: statusOf(id)
  }

  /** The dashboard's state. `statuses`, `selected`, `unread`, `grouped` and
      `openMenu` are the latest state, which the functional updates see;
      `statusesRef` and `selectedRef` are the values of the last render: what
      the two refs hold and what the handler closures of that render read.
      `openMenuShown` is the open menu of the last render, which the
      selection handler's closure reads. */
  class DashboardStore {
    var grouped: seq<SessionGroup>
    var statuses: map<SessionId, StatusRecord>
    var statusesRef: map<SessionId, StatusRecord>
    var selected: Option<SessionId>
    var selectedRef: Option<SessionId>
    var unread: map<SessionId, nat>
    var openMenu: Option<SessionId>
    var openMenuShown: Option<SessionId>
    var loading: bool

    ghost predicate Valid()
      reads this
    {
      AllFormatted(grouped)
    }

    /** The counters start from what the device stored. */
    constructor(stored: map<SessionId, nat>)
      ensures Valid()
      ensures grouped == [] && statuses == map[] && statusesRef == map[]
      ensures selected == None && selectedRef == None && openMenu == None && openMenuShown == None
      ensures unread == stored && loading
    {
      grouped := [];
      statuses := map[];
      statusesRef := map[];
      selected := None;
      selectedRef := None;
      unread := stored;
      openMenu := None;
      openMenuShown := None;
      loading := true;
    }

    /** A render followed by the effects that sync the refs; the handlers
        created by the render see the open menu as it is now. */
    method Render()
      requires Valid()
      modifies this`statusesRef, this`selectedRef, this`openMenuShown
      ensures Valid()
      ensures statusesRef == statuses && selectedRef == selected && openMenuShown == openMenu
    {
      statusesRef, selectedRef, openMenuShown := statuses, selected, openMenu;
    }

    /** `initialLoad`: without a user, or with a user whose id is missing or
        empty, only loading stops. Otherwise the history (nothing on error)
        is grouped, and when there is at least one session the map is
        replaced by the fetched status of each grouped session. */
    method InitialLoad(user: Option<UserId>, rows: Option<seq<HistoryRow>>, statusOf: SessionId -> StatusRecord)
      requires Valid()
      modifies this`grouped, this`statuses, this`loading
      ensures Valid() && !loading
      ensures !KnownUser(user) ==> grouped == old(grouped) && statuses == old(statuses)
      ensures KnownUser(user) ==> LoadedFrom(rows, grouped)
      ensures KnownUser(user) ==> statuses == if grouped == [] then old(statuses) else Fetched(SessionKeys(grouped), statusOf)
    {
      if !KnownUser(user) {
        loading := false;
        return;
      }
      var g := LoadHistory(rows);
      var fetched := if g == [] then statuses else Fetched(SessionKeys(g), statusOf);
      grouped, statuses, loading := g, fetched, false;
    }

    /** The INSERT callback of the history channel: `Regroup`, count the
        message as unread as `BumpUnread` says, and answer whether the
        session's status has to be fetched because the rendered map has no
        entry for it. */
    method OnHistoryInsert(row: HistoryRow) returns (fetch: bool)
      requires Valid()
      modifies this`grouped, this`unread
      ensures Valid()
      ensures Inserted(old(grouped), row, grouped)
      ensures unread == BumpUnread(old(unread), row.sessionId, selectedRef, StatusIn(statusesRef, row.sessionId))
      ensures fetch <==> row.sessionId !in statusesRef
    {
      RegroupHistory(row);
      CountUnread(row.sessionId);
      fetch := row.sessionId !in statusesRef;
    }

    /** The `setGroupedSessions` half of the INSERT callback. */
    method RegroupHistory(row: HistoryRow)
      requires Valid()
      modifies this`grouped
      ensures Valid()
      ensures Inserted(old(grouped), row, grouped)
    {
      grouped := Regroup(grouped, row);
    }

    /** The `setUnreadCounts` half of the INSERT callback, read against the
        rendered selection and status map. */
    method CountUnread(id: SessionId)
      modifies this`unread
      ensures unread == BumpUnread(old(unread), id, selectedRef, StatusIn(statusesRef, id))
    {
      unread := BumpUnread(unread, id, selectedRef, StatusIn(statusesRef, id));
    }

    /** The status fetched after an insert is stored whole under its session. */
    method CompleteStatusFetch(id: SessionId, fetched: StatusRecord)
      requires Valid()
      modifies this`statuses
      ensures Valid()
      ensures statuses == old(statuses)[id := fetched]
    {
      statuses := statuses[id := fetched];
    }

    /** The status channel's callback. A DELETE drops the entry and clears the
        selection when the selected session is the one deleted; any other event
        with a new row spreads that row over the entry. */
    method OnStatusEvent(e: StatusEvent)
      requires Valid()
      modifies this`statuses, this`selected
      ensures Valid()
      ensures ChangedId(e) == None ==> statuses == old(statuses) && selected == old(selected)
      ensures ChangedId(e).Some? && e.isDelete ==>
                && statuses == old(statuses) - {ChangedId(e).value}
                && selected == (if selectedRef == ChangedId(e) then None else old(selected))
      ensures ChangedId(e).Some? && !e.isDelete && e.newRow.Some? ==>
                statuses == Patch(old(statuses), ChangedId(e).value, e.newRow.value) && selected == old(selected)
      ensures ChangedId(e).Some? && !e.isDelete && e.newRow == None ==>
                statuses == old(statuses) && selected == old(selected)
    {
      var id := ChangedId(e);
      if id.Some? {
        if e.isDelete {
          statuses := statuses - {id.value};
          if selectedRef == id {
            selected := None;
          }
        } else if e.newRow.Some? {
          statuses := Patch(statuses, id.value, e.newRow.value);
        }
      }
    }

    /** `handleTogglePinSession` up to the backend call. Nothing happens for a
        session the render had no entry for or had archived; otherwise the
        flipped pin is written and the rendered pin is handed back for the revert. */
    method BeginTogglePin(id: SessionId) returns (started: bool, prior: Field<bool>)
      requires Valid()
      modifies this`statuses
      ensures Valid()
      ensures started <==> id in statusesRef && statusesRef[id].status != Present(Archived)
      ensures started ==> prior == statusesRef[id].isPinned
                          && statuses == SetPinned(old(statuses), id, Present(Flipped(prior)))
      ensures !started ==> statuses == old(statuses)
    {
      if id !in statusesRef || statusesRef[id].status == Present(Archived) {
        started, prior := false, Absent;
        return;
      }
      started, prior := true, statusesRef[id].isPinned;
      statuses := SetPinned(statuses, id, Present(Flipped(prior)));
    }

    /** The rest of `handleTogglePinSession`: on failure the remembered pin is
        written back; either way the context menu closes. */
    method CompleteTogglePin(id: SessionId, prior: Field<bool>, success: bool)
      requires Valid()
      modifies this`statuses, this`openMenu
      ensures Valid()
      ensures statuses == if success then old(statuses) else SetPinned(old(statuses), id, prior)
      ensures openMenu == None
    {
      if !success {
        statuses := SetPinned(statuses, id, prior);
      }
      openMenu := None;
    }

    /** `handleMarkAsUnread`: refused for a session rendered as archived (the
        menu stays open); otherwise the counter becomes 1 and the menu closes. */
    method MarkAsUnread(id: SessionId)
      requires Valid()
      modifies this`unread, this`openMenu
      ensures Valid()
      ensures StatusIn(statusesRef, id) == Present(Archived) ==> unread == old(unread) && openMenu == old(openMenu)
      ensures StatusIn(statusesRef, id) != Present(Archived) ==> unread == old(unread)[id := 1] && openMenu == None
    {
      if StatusIn(statusesRef, id) == Present(Archived) {
        return;
      }
      unread := unread[id := 1];
      openMenu := None;
    }

    /** `handleArchiveSession` up to the backend call: status archived, and the
        selection is cleared when the render had this session selected. */
    method BeginArchive(id: SessionId)
      requires Valid()
      modifies this`statuses, this`selected
      ensures Valid()
      ensures statuses == Patch(old(statuses), id, StatusPatch(Archived))
      ensures selected == if selectedRef == Some(id) then None else old(selected)
    {
      statuses := Patch(statuses, id, StatusPatch(Archived));
      if selectedRef == Some(id) {
        selected := None;
      }
    }

    /** The rest of `handleArchiveSession`: on failure the status becomes
        `ViewStatus` of the ref as it is now; the menu closes. */
    method CompleteArchive(id: SessionId, success: bool)
      requires Valid()
      modifies this`statuses, this`openMenu
      ensures Valid()
      ensures statuses == if success then old(statuses)
                          else Patch(old(statuses), id, StatusPatch(ViewStatus(statusesRef, id)))
      ensures openMenu == None
    {
      if !success {
        statuses := Patch(statuses, id, StatusPatch(ViewStatus(statusesRef, id)));
      }
      openMenu := None;
    }

    /** `handleUnarchiveSession` up to the backend call: status bot_active. */
    method BeginUnarchive(id: SessionId)
      requires Valid()
      modifies this`statuses
      ensures Valid()
      ensures statuses == Patch(old(statuses), id, StatusPatch(BotActive))
    {
      statuses := Patch(statuses, id, StatusPatch(BotActive));
    }

    /** The rest of `handleUnarchiveSession`: on failure the status is set back
        to archived; the menu closes. */
    method CompleteUnarchive(id: SessionId, success: bool)
      requires Valid()
      modifies this`statuses, this`openMenu
      ensures Valid()
      ensures statuses == if success then old(statuses) else Patch(old(statuses), id, StatusPatch(Archived))
      ensures openMenu == None
    {
      if !success {
        statuses := Patch(statuses, id, StatusPatch(Archived));
      }
      openMenu := None;
    }

    /** `handleSelectSession`: refused without a rendered entry or when
        `SelectionAllowed` says no; otherwise the session is selected, its
        counter zeroed, and the context menu closed if the render that made
        the handler showed it open on this session. */
    method SelectSession(id: SessionId, filter: string) returns (accepted: bool)
      requires Valid()
      modifies this`selected, this`unread, this`openMenu
      ensures Valid()
      ensures accepted <==> id in statusesRef && SelectionAllowed(EffectiveFilter(filter), statusesRef[id].status)
      ensures accepted ==> && selected == Some(id) && unread == old(unread)[id := 0]
                           && openMenu == (if openMenuShown == Some(id) then None else old(openMenu))
      ensures !accepted ==> selected == old(selected) && unread == old(unread) && openMenu == old(openMenu)
    {
      accepted := id in statusesRef && SelectionAllowed(EffectiveFilter(filter), statusesRef[id].status);
      if accepted {
        selected := Some(id);
        unread := unread[id := 0];
        if openMenuShown == Some(id) {
          openMenu := None;
        }
      }
    }
  }
}
