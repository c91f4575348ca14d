# Agent dashboard for a chatbot: a verified model of its client core

The system is a web console where human agents watch the conversations a
chatbot holds with end users. They can take a conversation over, hand it back
to the bot, reply, block, archive, pin or mark it unread, and save an answer
to a knowledge base. The browser keeps three pieces of state:

- the conversations: history rows grouped by session, oldest message first,
  with the most recently active session first;
- a map from session id to a partial status record;
- unread counters.

Realtime channels push new history rows and status changes into that state.
A thin gateway module wraps the database and the webhook that delivers agent
replies. A router sends the agent to the login page, to the page that sets an
initial password, or to the dashboard. A server function lets the bot report
a message's delivery status.

The Dafny project follows the source file by file:

| module | models |
|---|---|
| `Sessions` | status records as partial objects, and the object spread `{ ...base, ...patch }` |
| `Messages` | history rows and formatted messages, and deduplication by id |
| `Grouping` | the pipeline shared by both groupers: sort by time, the per-session `reduce` that keeps `lastMessageTime`, ranking by recency, flattening |
| `Interactions`, `LegacyInteractions` | the dashboard's grouper and the earlier chatbot-interactions page with its own grouper |
| `Dashboard` | the dashboard's view filter and selection guard, and a `DashboardStore` class whose methods are its handlers and realtime callbacks |
| `ChatView` | the conversation pane: trimming, which controls it offers, the backward search for the question an answer replies to, and a `ChatViewState` class whose handlers write into the shared store |
| `Gateway` | the `supabaseClient.js` calls, as a `Backend` class over table-valued fields |
| `Routes` | the route guards of `App.js` and its auth state |
| `InitialPassword` | the initial-password form; its submit handler is specified by the trace of steps it performs |
| `StatusEndpoint` | the `update-message-status` server function |

Every asynchronous handler is a pair of methods. `Begin…` does what happens
before the `await`. `Complete…(success)` does what happens after it. What the
backend answers, what `window.confirm` answers and the current time are
parameters.

## Model

| member | source | states |
|---|---|---|
| Sessions.Merge | src/DashboardPage.js:156 | object spread: every key the patch carries wins, every other key keeps the base's value |
| Sessions.MergeIdempotent | src/DashboardPage.js:155-156 | spreading the same patch twice equals spreading it once |
| Sessions.MergeEmptyAndFull | src/DashboardPage.js:155-156 | spreading `{}` changes nothing; a patch carrying every key replaces the record |
| Sessions.Patch | src/ChatView.js:116-119 | `{ ...prev, [id]: { ...(prev[id] \|\| {}), ...patch } }`: the keys grow by `id`, the entry at `id` is the merge, every other entry is unchanged |
| Messages.StringOr | src/DashboardPage.js:50-51 | `x \|\| fallback` on a string: a present non-empty string is kept; missing or "" gives the fallback |
| Messages.WithoutId | src/DashboardPage.js:135 | the filter by id keeps a sub-multiset, removes every record with that id and keeps every record with another id |
| Messages.WithoutIdCount | src/DashboardPage.js:135 | the filter keeps each record without the id exactly as many times as it occurs, and none with it |
| Messages.WithoutIdAppend | src/DashboardPage.js:135 | filtering a concatenation concatenates the filtered parts, so the kept records stay in their order |
| Messages.WithoutIdOne | src/DashboardPage.js:135 | a single record is kept exactly when its id differs |
| Messages.ReplaceById | src/DashboardPage.js:135 | after dropping the id and appending the new record, that record is the only one with its id and occurs once, and unique ids stay unique |
| Grouping.InsertBy | src/DashboardPage.js:61 | inserting into a sorted sequence keeps it sorted and adds exactly the element |
| Grouping.SortBy | src/DashboardPage.js:61 | the sort by time yields a sorted permutation of its input |
| Grouping.Only | src/DashboardPage.js:62-69 | a session's messages are messages of the input with that session id |
| Grouping.OnlyComplete | src/DashboardPage.js:63-65 | every input message lands in its own session's list |
| Grouping.OnlyChronological | src/DashboardPage.js:59-65 | pushing in sorted order leaves each session's list in time order |
| Grouping.LastTimeIsMax | src/DashboardPage.js:64-67 | `lastMessageTime` starts at 0 and is the maximum of 0 and the session's times; it is reached by a message unless it is 0 |
| Grouping.LastTimeOfChronological | src/DashboardPage.js:64-67 | for a time-ordered list, `lastMessageTime` is the larger of 0 and the last message's time |
| Grouping.IndexOf | src/DashboardPage.js:64 | the lookup `acc[sid]` finds the accumulator entry of that session, or reports that none exists |
| Grouping.AccumulateNew | src/DashboardPage.js:64-67 | a first message of a session opens a new entry, and the accumulator invariant holds on |
| Grouping.AccumulateExisting | src/DashboardPage.js:65-67 | a further message is appended to its session's entry and raises its time, and the invariant holds on |
| Grouping.ReduceAccumulates | src/DashboardPage.js:62-69 | the `reduce` over any input builds distinct session entries, each holding exactly its session's messages in input order with their `lastMessageTime`, and covers every session of the input |
| Grouping.GroupBySession | src/DashboardPage.js:62-69 | the loop computes the `reduce` step by step (`Reduce` of the input) and so builds one entry per session of the input, with distinct keys, each holding exactly that session's messages in input order and their `lastMessageTime` |
| Grouping.InsertKeepsDistinct | src/DashboardPage.js:70 | ranking never duplicates a session key |
| Grouping.SortKeepsDistinct | src/DashboardPage.js:70 | sorting the entries by recency keeps the session keys distinct |
| Grouping.RankedEntries | src/DashboardPage.js:70 | reordering the entries keeps each one the exact message list and time of its session |
| Grouping.RankedCovers | src/DashboardPage.js:62-71 | after ranking, every input message's session still has an entry |
| Grouping.RankedByRecency | src/DashboardPage.js:70 | entries ranked by `lastMessageTime` descending have non-increasing latest message times |
| Grouping.GroupAndRank | src/DashboardPage.js:59-71 | the result groups the messages by session, time-ordered inside each session, distinct sessions, most recent activity first |
| Grouping.GroupsAreChronological | src/DashboardPage.js:59-65 | every conversation is in time order |
| Grouping.MessageInItsGroup | src/DashboardPage.js:62-71 | every input message is shown in its own session's conversation |
| Grouping.SessionsOfGrouping | src/DashboardPage.js:62-71 | the sessions shown are exactly the sessions of the input messages |
| Grouping.ConcatSnoc | src/DashboardPage.js:62-69 | appending a message of a known session adds it once to the concatenation of the per-session lists |
| Grouping.ConcatCovers | src/DashboardPage.js:62-71 | concatenating the per-session lists of every session gives back the input as a multiset |
| Grouping.FlattenIsConcat | src/ChatbotInteractions.js:101-105 | flattening a grouping is concatenating its sessions' lists |
| Grouping.FlattenGrouping | src/ChatbotInteractions.js:101-105 | flattening a grouping gives back exactly its messages, as a multiset |
| Interactions.Format | src/DashboardPage.js:48-53 | id, session and time are copied, and the agent flag is always present |
| Interactions.FormatDefaults | src/DashboardPage.js:48-53 | missing or empty type and content become "unknown" and "Mensaje vacío"; the flag is false exactly when the row is not sent by an agent |
| Interactions.Normalize | src/DashboardPage.js:60 | a record that has `isAgentMessage` passes unchanged; a raw row is formatted |
| Interactions.NormalizeIdempotent | src/DashboardPage.js:60 | normalising a normalised record changes nothing |
| Interactions.Process | src/DashboardPage.js:55-74 | empty input gives no sessions; otherwise the result is the grouping of the normalised input and holds exactly its messages |
| Interactions.NormalizedFormatted | src/DashboardPage.js:60 | records that went through the formatter are not formatted again |
| Interactions.NormalizedAreFormatted | src/DashboardPage.js:60 | every normalised record carries the agent flag |
| LegacyInteractions.Format | src/ChatbotInteractions.js:10-23 | id, session and time are copied; no agent flag is set |
| LegacyInteractions.FormatDefaults | src/ChatbotInteractions.js:10-23 | missing or empty type and content become "unknown" and "Mensaje vacío" |
| LegacyInteractions.Normalize | src/ChatbotInteractions.js:34 | a built record with a truthy session id passes unchanged; a raw row is formatted |
| LegacyInteractions.ReformatLosesContent | src/ChatbotInteractions.js:34 | a built record with an empty session id is formatted again from itself and loses its type and content |
| LegacyInteractions.NormalizeTwice | src/ChatbotInteractions.js:34 | normalising a second time is the identity exactly when the session id is non-empty or the record already carries the defaults |
| LegacyInteractions.Process | src/ChatbotInteractions.js:26-66 | empty input gives no sessions; otherwise the grouping of the normalised input, holding exactly its messages |
| LegacyInteractions.Collect | src/ChatbotInteractions.js:101-105 | the `forEach` concatenation yields the flattening of the conversations |
| LegacyInteractions.InsertKeepsDuplicate | src/ChatbotInteractions.js:94-111 | a pushed row whose id is already shown leaves two records with that id |
| LegacyInteractions.LegacyView.InitialLoad | src/ChatbotInteractions.js:69-85 | the conversations become the grouping of the fetched rows, or none on error; loading ends |
| LegacyInteractions.LegacyView.OnInsert | src/ChatbotInteractions.js:94-111 | the conversations become the grouping of every shown record plus the new one; one more record is shown |
| Dashboard.EffectiveFilter | src/DashboardPage.js:320-330 | a missing filter means "active" |
| Dashboard.ViewsPartition | src/DashboardPage.js:320-330 | every status belongs to exactly one of active, archived and blocked; any other filter shows what "active" shows |
| Dashboard.VisibleSessions | src/DashboardPage.js:320-330 | a session is listed iff it is grouped and the view shows its status; nothing is added |
| Dashboard.VisibleIsSubsequence | src/DashboardPage.js:320-330 | the listed sessions are the grouped ones at strictly increasing positions: `filter` keeps their order |
| Dashboard.VisibleKeepsRanking | src/DashboardPage.js:320-330 | any non-increasing ranking of the grouped sessions is still non-increasing on the listed ones |
| Dashboard.VisibleByRecency | src/DashboardPage.js:70-71 | the list of a view shows its sessions most recent first, as the grouper ranked them |
| Dashboard.ShowsChatView | src/DashboardPage.js:332-337 | the conversation pane shows iff a session with an entry is selected, the filter is one of the three views and that view shows its status |
| Dashboard.ViewStatus | src/DashboardPage.js:363 | the pane receives the session's status, or bot_active when there is none |
| Dashboard.SelectionMatchesView | src/DashboardPage.js:272-290 | in the three views the selection guard is exactly the list's filter; any other filter accepts every session with an entry |
| Dashboard.BumpUnread | src/DashboardPage.js:136-137 | the counter of the message's session grows by one unless that session is selected, archived or blocked; no other counter changes |
| Dashboard.SetPinned | src/DashboardPage.js:186-189 | only the pin of that session's entry changes |
| Dashboard.PinRevertRestores | src/DashboardPage.js:182-201 | writing the flipped pin and then the remembered pin restores the map |
| Dashboard.Flipped | src/DashboardPage.js:182 | the new pin is true iff the old one was not true |
| Dashboard.ArchiveRevertDependsOnRender | src/DashboardPage.js:216-240 | archiving and then reverting before any render restores the session's earlier entry (a missing status comes back as bot_active) and leaves other sessions alone; after a render the revert writes archived again |
| Dashboard.ChangedId | src/DashboardPage.js:149-150 | the event's session id is the new row's id if truthy, else the old row's; none iff both are missing or empty |
| Dashboard.Fetched | src/DashboardPage.js:90-96 | one fetched status record per grouped session, and nothing else |
| Dashboard.LoadHistory | src/DashboardPage.js:86-88 | the conversations are the grouping of the fetched rows, or empty on error |
| Dashboard.Regroup | src/DashboardPage.js:134-135 | the grouping of every shown record without the row's id, then the new record, which is then the only one with its id |
| Dashboard.DashboardStore.constructor | src/DashboardPage.js:31-42 | nothing loaded or selected, counters restored from the device, loading |
| Dashboard.DashboardStore.Render | src/DashboardPage.js:43-44 | after a render the refs hold the latest status map and selection, and the handlers it creates see the current open menu |
| Dashboard.DashboardStore.InitialLoad | src/DashboardPage.js:76-103 | without a user or with a missing or empty user id only loading stops; otherwise the grouping of the history, and the status map replaced by the fetched records when some session exists |
| Dashboard.DashboardStore.OnHistoryInsert | src/DashboardPage.js:132-143 | regroups with the row replacing any record with its id, bumps the unread counter, and asks for a status fetch iff the rendered map has no entry for the session |
| Dashboard.DashboardStore.RegroupHistory | src/DashboardPage.js:134-135 | the grouped sessions become the regrouping with the row inserted, and stay formatted |
| Dashboard.DashboardStore.CountUnread | src/DashboardPage.js:136-138 | the counters become `BumpUnread` of the old counters, read against the rendered selection and status |
| Dashboard.DashboardStore.CompleteStatusFetch | src/DashboardPage.js:139-142 | the fetched record is stored whole under its session |
| Dashboard.DashboardStore.OnStatusEvent | src/DashboardPage.js:147-159 | a DELETE drops the entry and clears a selection of that session; another event spreads the new row over the entry; no id means no change |
| Dashboard.DashboardStore.BeginTogglePin | src/DashboardPage.js:175-190 | refused without a rendered entry or for an archived session; otherwise the flipped pin is written and the rendered pin is returned |
| Dashboard.DashboardStore.CompleteTogglePin | src/DashboardPage.js:191-204 | on failure the remembered pin is written back; the menu closes |
| Dashboard.DashboardStore.MarkAsUnread | src/DashboardPage.js:206-214 | an archived session is refused and nothing changes; otherwise the counter becomes 1 and the menu closes |
| Dashboard.DashboardStore.BeginArchive | src/DashboardPage.js:216-226 | the status becomes archived, and a selection of that session is cleared |
| Dashboard.DashboardStore.CompleteArchive | src/DashboardPage.js:227-240 | on failure the status becomes the archive fallback; the menu closes |
| Dashboard.DashboardStore.BeginUnarchive | src/DashboardPage.js:242-249 | the status becomes bot_active |
| Dashboard.DashboardStore.CompleteUnarchive | src/DashboardPage.js:250-263 | on failure the status goes back to archived; the menu closes |
| Dashboard.DashboardStore.SelectSession | src/DashboardPage.js:265-295 | accepted iff the rendered map has the session and the view's guard allows it; then it is selected, its counter zeroed, and the menu closed when the rendered menu was open on it (the latest menu is kept otherwise); refused means no change |
| ChatView.TrimStart | src/ChatView.js:82 | drops exactly the leading whitespace: a suffix, everything dropped is whitespace, and the first character kept is not |
| ChatView.TrimEnd | src/ChatView.js:82 | drops exactly the trailing whitespace, symmetrically |
| ChatView.TrimBounds | src/ChatView.js:82 | the trimmed text is the slice `s[i..j]` with only whitespace before `i` and after `j` |
| ChatView.TrimEnds | src/ChatView.js:82 | the trimmed text, when not empty, starts and ends with a non-whitespace character |
| ChatView.TrimEmpty | src/ChatView.js:81-82 | the trimmed text is empty exactly when the input is all whitespace, which is when the reply is not sent |
| ChatView.TrimSpec | src/ChatView.js:81-82 | `trim()` is a slice with whitespace on both sides and non-whitespace ends; it is empty iff the text is all whitespace |
| ChatView.TrimIdempotent | src/ChatView.js:81-82 | trimming twice is trimming once |
| ChatView.OfferedControls | src/ChatView.js:246-272 | the reply form shows iff the status is agent_active or needs_agent; blocked offers only unblock; archived offers nothing; any other status offers block and exactly one of take over and return to bot |
| ChatView.FindQuestion | src/ChatView.js:186-188 | the backward search finds the nearest earlier user message, or none when no earlier message is one |
| ChatView.ChatViewState.constructor | src/ChatView.js:52-53 | an empty input and no saved answers, attached to the dashboard's store |
| ChatView.ChatViewState.Type | src/ChatView.js:248 | the input holds the typed text |
| ChatView.ChatViewState.SessionChanged | src/ChatView.js:70-73 | switching conversations clears the input and the saved answers |
| ChatView.ChatViewState.BeginSendReply | src/ChatView.js:80-85 | sends the trimmed input and clears it iff there is a user and a session, the status is not blocked or archived and the trimmed text is not empty; otherwise nothing changes |
| ChatView.ChatViewState.CompleteSendReply | src/ChatView.js:87-95 | a successful send makes the session agent_active with this agent unless it already was; nothing else changes |
| ChatView.ChatViewState.ChangeSessionState | src/ChatView.js:98-136 | under the same guards, writes the new status with the agent for agent_active and null otherwise; there is no revert |
| ChatView.ChatViewState.BeginBlock | src/ChatView.js:138-145 | blocks with the agent iff user, session, not archived and confirmed |
| ChatView.ChatViewState.CompleteBlock | src/ChatView.js:145-153 | on failure the previous status is written back |
| ChatView.ChatViewState.BeginUnblock | src/ChatView.js:157-167 | bot_active with no agent iff user, session and not archived |
| ChatView.ChatViewState.CompleteUnblock | src/ChatView.js:169-180 | on failure the status goes back to blocked |
| ChatView.ChatViewState.BeginSaveToKB | src/ChatView.js:183-190 | an entry is produced only under every guard, pairing the answer with the nearest earlier user question; no entry means some guard failed or no earlier question exists |
| ChatView.ChatViewState.CompleteSaveToKB | src/ChatView.js:191-193 | a successful save marks the answer as saved |
| Gateway.RowsOf | src/supabaseClient.js:99-100 | the session filter keeps each row of the session (every row when no session is given) as often as the table holds it, and no other row |
| Gateway.Reversed | src/supabaseClient.js:103 | `reverse()` mirrors indices and keeps the elements |
| Gateway.ReversedIsAscending | src/supabaseClient.js:99-103 | reversing the newest-first rows gives them oldest first |
| Gateway.CutKeepsNewest | src/supabaseClient.js:99 | the rows cut off by the limit are no newer than any row kept |
| Gateway.CutOlder | src/supabaseClient.js:99 | a row past the limit in the newest-first order is no newer than any row returned |
| Gateway.CutPrefixKept | src/supabaseClient.js:99 | every row within the limit is returned |
| Gateway.CutMembers | src/supabaseClient.js:99 | every returned row comes from the table's rows |
| Gateway.HistoryQuerySelects | src/supabaseClient.js:98-104 | the rows returned are a sub-multiset of the matching rows, and all of them when there are no more than `limit` |
| Gateway.HistoryQueryNewest | src/supabaseClient.js:98-104 | `min(limit, matches)` rows of the session, taken from the table, oldest first, and no left-out match is newer than a returned row |
| Gateway.HistoryQuerySpec | src/supabaseClient.js:96-105 | exactly `min(limit, matches)` rows of the session, drawn from the matching rows with no row repeated beyond its multiplicity (all of them when the limit allows), oldest first, and no left-out row is newer than a returned one: the newest `limit` matches |
| Gateway.Backend.constructor | src/supabaseClient.js:21 | empty tables; configured or not, with the webhook URL |
| Gateway.Backend.GetSessionStatus | src/supabaseClient.js:108-155 | the stored row for the session; the default record without a client, on error or for a missing row; a null id without a session |
| Gateway.Backend.GetChatHistory | src/supabaseClient.js:96-105 | null iff there is no client or the query fails; otherwise the history query |
| Gateway.Backend.Upserted | src/supabaseClient.js:158-180 | the upserted row has the given status, agent and time and keeps the stored pin (or the column default) |
| Gateway.Backend.UpdateSessionStatus | src/supabaseClient.js:158-180 | succeeds iff configured and the write succeeds; then the row is upserted, otherwise nothing changes |
| Gateway.Backend.SetPinStatus | src/supabaseClient.js:205-217 | the pin and time of an existing row change on success; a missing row is not created |
| Gateway.Backend.ArchiveSession | src/supabaseClient.js:219-229 | an existing row becomes archived, with no agent and unpinned |
| Gateway.Backend.UnarchiveSession | src/supabaseClient.js:231-242 | an existing row becomes bot_active with no agent, keeping its pin |
| Gateway.Backend.BlockSession | src/supabaseClient.js:244-261 | the block list gains the session unless the insert failed; a duplicate insert still counts as success; the status row is upserted as blocked |
| Gateway.Backend.UnblockSession | src/supabaseClient.js:263-275 | the block list loses the session and the row is upserted as bot_active with no agent; success needs both writes |
| Gateway.Backend.SendAgentMessage | src/supabaseClient.js:183-203 | the errors in order (URL, client, save); a saved reply is stored as an agent message and posted to the webhook, and a 2xx answer is success |
| Gateway.Backend.SaveToKnowledgeBase | src/supabaseClient.js:277-291 | the entry is appended iff configured and the insert succeeds |
| Gateway.Backend.UpdateUserPasswordChangeFlag | src/supabaseClient.js:68-92 | needs a user id and a client; a successful update rewrites that profile's flag and time |
| Routes.ProtectedRouteOutcomes | src/App.js:152-184 | loading until settled; login without a session; login with profile_not_found without a profile; the password page while a change is pending; the dashboard once it is done; the page otherwise |
| Routes.LoginRouteOutcomes | src/App.js:186-203 | loading until settled; the dashboard when ready; the password page while a change is pending; the login page otherwise |
| Routes.Resolve | src/App.js:207-216 | following redirects ends at a screen that is not a redirect |
| Routes.NoRedirectLoop | src/App.js:152-216 | from any path, a settled state reaches the dashboard, the password page or the login page within two redirects |
| Routes.CatchAllAgreesWithLogin | src/App.js:215 | the catch-all sends to the dashboard exactly when the login route would, and to the login page otherwise |
| Routes.AuthState.constructor | src/App.js:95-98 | no session and no profile; the session is loading and the profile is not |
| Routes.AuthState.InitialSession | src/App.js:104-113 | stores the session; without one the profile is cleared and stops loading |
| Routes.AuthState.AuthChanged | src/App.js:115-125 | stores the session and clears the profile; without a session the profile stops loading |
| Routes.AuthState.ProfileEffect | src/App.js:129-149 | with a session the profile is fetched and loading; without one it is cleared |
| Routes.AuthState.ProfileLoaded | src/App.js:129-149 | the fetched profile, or none, is stored and loading stops |
| InitialPassword.ReplaySnoc | src/SetInitialPasswordPage.js:51-109 | replaying one more step applies it to the replayed feedback |
| InitialPassword.ReplayAppend | src/SetInitialPasswordPage.js:51-109 | replaying two runs of steps is replaying one after the other |
| InitialPassword.QuietKeepsText | src/SetInitialPasswordPage.js:51-109 | steps that write no text leave the error and the message alone |
| InitialPassword.ReplayOneText | src/SetInitialPasswordPage.js:53-108 | after clearing, one text step fixes what is shown |
| InitialPassword.SubmitValidatesFirst | src/SetInitialPasswordPage.js:53-68 | feedback is cleared first; a short password or a mismatch stops with its error; the user is looked up and the password updated only for an acceptable pair |
| InitialPassword.SubmitOrder | src/SetInitialPasswordPage.js:71-107 | the flag is updated iff the pair is acceptable, a user is found and the password update succeeds; the redirect is scheduled iff the flag update also succeeds |
| InitialPassword.SubmitEndsNotLoading | src/SetInitialPasswordPage.js:68-108 | an accepted submission ends not loading; a rejected one never touches loading |
| InitialPassword.SubmitEndsWithText | src/SetInitialPasswordPage.js:51-109 | success shows the confirmation and no error; every failure shows an error and no message |
| InitialPassword.SetInitialPasswordForm.constructor | src/SetInitialPasswordPage.js:44-48 | empty fields, no feedback, not loading |
| InitialPassword.SetInitialPasswordForm.Type | src/SetInitialPasswordPage.js:146-158 | the fields hold what was typed |
| InitialPassword.SetInitialPasswordForm.Do | src/SetInitialPasswordPage.js:51-109 | performing a step appends it to the trace and keeps the form equal to the trace's replay |
| InitialPassword.SetInitialPasswordForm.Submit | src/SetInitialPasswordPage.js:51-109 | performs exactly the submit steps; the form shows their replay; the profile's flag is cleared iff every call succeeded |
| InitialPassword.SetInitialPasswordForm.FinishSubmit | src/SetInitialPasswordPage.js:71-108 | from the user lookup on, performs the remaining submit steps |
| InitialPassword.SetInitialPasswordForm.UpdateFlagStep | src/SetInitialPasswordPage.js:95-108 | the flag update, then the confirmation and the delayed redirect, or the flag error; loading ends |
| StatusEndpoint.HandleOutcomes | supabase/functions/update-message-status/index.ts:12-71 | OPTIONS answers "ok" with CORS headers; otherwise the codes are 200, 400, 401 or 500 with JSON headers; 401 iff the key differs from the secret; 400 iff authorised and a field is missing or falsy; 200 iff the update finds the row; only a 200 changes the table |
| StatusEndpoint.HandleUpdatesOneStatus | supabase/functions/update-message-status/index.ts:45-62 | a 200 changes only that row's status and returns the updated row |
| StatusEndpoint.HandleIdempotent | supabase/functions/update-message-status/index.ts:45-62 | repeating a successful request gives the same answer and the same table |
| StatusEndpoint.UnsetSecretRefusesAll | supabase/functions/update-message-status/index.ts:18-27 | with no secret configured every request is refused with 401 and nothing changes |

## Left out

- Rendering, styles, icons, toasts and `alert`s, `console` logging, and the
  `isMountedRef` guards: nothing shown on screen beyond the state is modelled.
- The realtime channel plumbing (subscribe and unsubscribe): only its callbacks are modelled.
- `localStorage`: the stored unread counters are the store's constructor
  argument, and writing them back is not modelled.
- `new Date()` and date parsing: times are integers in milliseconds, and
  `now` is a parameter. Both groupers skip an invalid time (`NaN`) when they
  raise `lastMessageTime` (src/DashboardPage.js:66-67 and
  src/ChatbotInteractions.js:44-45); with integer times that case does not
  arise, and neither it nor an invalid date inside the sort comparator is
  modelled.
- Grouping.SortBy: does not state that messages with equal times keep their
  input order, as JavaScript's stable sort does; it states a sorted
  permutation only.
- Grouping.GroupAndRank: does not state the order of sessions whose
  `lastMessageTime` is equal. The result is a sequence. The source builds an
  object, whose key order JavaScript fixes (integer-like session ids are
  enumerated first); that order is not modelled.
- `null`, `undefined` and "" all stand for a missing string or id. `Field`
  models a missing key only where the source tells one apart from a falsy value.
  Where this matters is the conversation pane, which tests the selected id
  for truthiness (src/DashboardPage.js:332). A row whose session id is
  `null` is grouped by the source under the truthy key `"null"`, so its pane
  shows; the model groups it under `""`, and `Dashboard.ShowsChatView` shows
  it too. A row whose session id really is `""`, however, is never shown by
  the source's pane, while `Dashboard.ShowsChatView` shows it once selected.
- LegacyInteractions.LegacyView.InitialLoad: the `catch` branch of the
  earlier page's load, which would record an error and empty the
  conversations, is not modelled, because `getChatHistory` catches its own
  errors and answers `null`.
- String length counts characters, not UTF-16 code units, so the six-character
  minimum of the initial password page can differ for characters outside the
  Basic Multilingual Plane.
- Dashboard.DashboardStore.InitialLoad: the history fetch and the status
  fetches are one step. An insert or status event arriving between the two
  awaits is not interleaved.
- Dashboard.DashboardStore.OnHistoryInsert: the `getSessionStatus` call is
  not made here. The method answers whether it is needed, and
  `CompleteStatusFetch` stores its result.
- Dashboard.SetPinned: a pin restored to a missing value is written as a
  missing key instead of a key holding `undefined`; every reader treats the
  two alike.
- The end user's side, the login, forgot-password and update-password pages,
  the session list component, `index.js` and `App.test.js`: none of them is
  part of this model. The vectorize-knowledge-base function is not part of it either.
- `getCurrentUserProfile` is not part of this model. Its result is the
  argument of `Routes.AuthState.ProfileLoaded`.
- Gateway.Backend: ids assigned by the database are inputs (`newId`). The
  `is_pinned` column's default is taken to be false (`PinnedDefault`).
- Gateway.Backend.SendAgentMessage: it does not model a failure while
  reading the webhook's answer or a thrown `fetch`. Both fall under
  `NetworkOrCode`.
- StatusEndpoint.HandleOutcomes: it does not state the text of the 500
  error. A body that does not parse as JSON and a failed update both answer
  500 with `ServerError`.
- The password update itself (`supabase.auth.updateUser`) and the user
  lookup are inputs of `Submit` (`updateError`, `user`), as is the delay of
  the redirect timer.
